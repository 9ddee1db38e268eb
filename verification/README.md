# A verified model of the Aster server

This project models the stateful core of the Aster chat server in Dafny and proves what that core
promises: the resumable gateway sessions, the role hierarchy of a guild, sign-in sessions and email
tokens, the rate limiter, message paging and search, read positions, voice presence, the channel tree,
and the life of an attachment and its stored object.

`dafny verify dfyconfig.toml` checks all of it.

## How it is built

Each component has a specification on values (one function per step, with scheduling, clock readings,
fresh identifiers and authorization results as parameters), run functions that chain the steps, and
theorems about every reachable state or every run. Where the server keeps mutable state, a class does
the same work imperatively, and each of its methods is proved to have exactly the effect of its step.

The lemmas named `...Outcome` say of each step, without its own definition, when exactly it succeeds, with
which error it is refused otherwise, which value each field has afterwards, and what stays as it was.

| component | specification | theorems | imperative form |
|---|---|---|---|
| gateway | `GatewayProtocol`, `GatewayClient`, `GatewayHubSpec`, `GatewayRuns` | `GatewayTheorems`, `GatewayRefusals`, `GatewayRetention`, `GatewayOutcomes` | `GatewayClient.Client`, `GatewayHub` |
| guild roles | `GuildAccess`, `GuildActions` | `GuildHierarchy`, `GuildOutcomes` | `GuildService` |
| accounts | `AuthSessions`, `AuthEmailTokens`, `AuthAccounts`, `AuthService` | `AuthTheorems`, `AuthOutcomes` | `AuthStore` |
| rate limiter | `RateLimiter` | `RateLimiter` | `RateLimiter.FixedWindowLimiter` |
| paging, search | `Paging`, `LikePattern` | same modules | pure in the source |
| read position | `ReadPosition` | `ReadPosition` | `ReadPosition.ReadStore` |
| voice | `VoiceRegistry`, `VoiceInterleaving` | same modules | `VoiceService` |
| channels | `ChannelTree` | `ChannelTree` | `ChannelTree.ChannelStore` |
| attachments | `Attachments`, `MediaRuns` | same modules | `MediaStore` |

What the model takes as given:

- UUIDs, random tokens and hashes are opaque and, when drawn, new. Time is an integer; the rate limiter
  and the runs of attachments need a clock that does not run backwards, nothing else does.
- A service call on roles or channels, and a store transaction on accounts, attachments or read states,
  is one step. Calls of the voice service are also interleaved lock section by lock section, and sweeps
  of the janitor transaction by transaction and object by object.
- An `enqueue` on a connection has the nondeterminism of its `select`: the write loop may have drained
  any number of frames, anybody may have terminated the connection, and a terminated connection with
  room may give either answer. All of this is one `Schedule` parameter, so a theorem for every schedule
  holds of every interleaving.
- Texts (names, nicknames, topics, addresses) have passed their validators.

One comment in the source is not true of the code. `UpdateReadState` says that a position never moves
backward (`internal/chat/readstate_postgres.go:16`). It does when the last-read message was deleted and
an earlier one is read next: `ReadPosition.CanMoveBackward` is such a run, and
`ReadPosition.BackwardIffDeleted` says that this is exactly when.

Three facts whose conditions are worth knowing:

- `GuildHierarchy.CeilingOverRuns` bounds a coalition by the union of its own permissions and those of
  the roles below it. It cannot be bounded by what the acting member holds, since assigning a lower
  role compares positions and not bits.
- `MediaRuns.OnlyLateUploadsAreOrphaned` names the one way in which an object can be left behind: an
  upload URL outlives the deletion of its attachment.
- `MediaRuns.PendingOutlivesItsURL` needs the URL to be signed within 45 minutes of the row, since the
  signing is a separate step after the insert; `MediaRuns.LateURLsOutliveTheirRow` says that this is
  exact.

## Model

| member | source | states |
|---|---|---|
| `GatewayProtocol.ContentNeedsItsIntent` | internal/gateway/protocol.go:180-205 | a session without the MESSAGE_CONTENT intent is owed neither the text of a message nor that of the message it answers |
| `GatewayProtocol.EventForIsOwed` | internal/gateway/protocol.go:180-205 | what a recipient is owed: a message exactly with the bit for direct or for guild messages, every field that of the message, with its text and that of the message it answers exactly with the content bit; another event exactly with its bit; what is for a user always |
| `GatewayProtocol.IntentIsItsBit` | internal/gateway/hub.go:141-146 | setting a bit gives its intent and clearing it takes it away |
| `GatewayClient.OfferAnswers` | internal/gateway/service.go:321-331 | a frame is queued behind what was there exactly when there is room once the write loop has drained and a terminated connection picks the send branch, and a connection is terminated exactly when it was, is meanwhile, or refuses |
| `GatewayClient.Client.Enqueue` | internal/gateway/service.go:321-331 | the queue of a real connection changes and answers as one offer under the given schedule, full queues terminating it |
| `GatewayClient.Client.Interrupt` | internal/gateway/service.go:333-345 | the write loop takes a prefix of what waits, and a termination closes the connection once |
| `GatewayHubSpec.RemoveAllStep` | internal/gateway/hub.go:279-298 | removing sessions one by one, in any order, is removing the whole set, and reports each user once, when the last session goes |
| `GatewayHubSpec.DispatchAllStep` | internal/gateway/hub.go:130-149 | dispatching session after session, in any order, is one simultaneous dispatch to all that are owed an event |
| `GatewayHubSpec.ReplayBlocks` | internal/gateway/hub.go:104-109 | a replay loop places the missed entries as one gapless block, or stops at the first refusal |
| `GatewayRuns.ApplyInv` | internal/gateway/hub.go:52-305 | every critical section keeps: both indexes agree, the caps, the buffer is the tail of the log, every connection holds one block of its session's log, and a current one holds it to the end |
| `GatewayRuns.RunInv` | internal/gateway/hub.go:52-305 | so does every run |
| `GatewayRuns.RunContinues` | internal/gateway/hub.go:52-305 | over a run logs and delivered frames only grow, bindings stay, and a connection that lost its session is frozen |
| `GatewayTheorems.EveryConnectionGetsABlock` | internal/gateway/hub.go:87-128 | in every run the dispatches placed on a connection are one contiguous block of one session's full log |
| `GatewayTheorems.IdentifiedFromTheStart` | internal/gateway/hub.go:52-85 | after identify that block starts at entry 0, which is READY, whatever happens later |
| `GatewayTheorems.ResumedFromWhereItStopped` | internal/gateway/hub.go:87-111 | after resume it starts right behind the sequence the client gave |
| `GatewayTheorems.NothingAfterLosingTheSession` | internal/gateway/hub.go:121-128 | a connection that lost its session never gets another dispatch |
| `GatewayTheorems.RefusalDetaches` | internal/gateway/hub.go:257-270 | a dispatch that the connection refuses takes its session away |
| `GatewayRefusals.RefusalLosesTheSession` | internal/gateway/hub.go:81-110 | a connection that refuses READY, a replayed event, RESUMED or a published event loses its session in the same operation |
| `GatewayRefusals.NothingFollowsARefusal` | internal/gateway/hub.go:121-128 | in every run, nothing is ever placed on a connection after a dispatch that it refused |
| `GatewayTheorems.ClientProcessesAPrefix` | internal/gateway/hub.go:87-111 | a client that always resumes from what it processed last processes exactly a prefix of the log: no gap, no duplicate |
| `GatewayTheorems.FaithfulClientsMissNothing` | internal/gateway/hub.go:87-128 | so it is in every run from the start, for every such client and session |
| `GatewayTheorems.BufferIsTheTail` | internal/gateway/hub.go:272-277 | the buffer is always the last min(bufferSize, sequence + 1) entries, each under its own number |
| `GatewayTheorems.ResumableIffNothingLost` | internal/gateway/hub.go:92-98 | an owner's resume passes its checks exactly when every event after the given sequence is still buffered |
| `GatewayTheorems.ResumeReplaysExactly` | internal/gateway/hub.go:99-111 | a successful resume places exactly the missed events and then RESUMED |
| `GatewayTheorems.ResumeFits` | internal/gateway/service.go:86-92 | HELLO, replay and RESUMED fit the queue of bufferSize + 8, so an undisturbed fresh connection resumes exactly when the checks pass |
| `GatewayOutcomes.OthersCannotResume` | internal/gateway/hub.go:92-98 | a resume by anybody but the user of the session, of a session that is unknown or expired, or from a sequence after which something is lost or that was never reached, answers false and does nothing but prune |
| `GatewayOutcomes.ResumesIffAllowed` | internal/gateway/hub.go:87-111 | on an undisturbed fresh connection a resume answers true exactly when the session survives pruning, its user is the caller, the sequence is one of its log and every later entry is still buffered |
| `GatewayOutcomes.ResumeTouchesOneSession` | internal/gateway/hub.go:99-103 | a resume that passes terminates exactly the connection that held the session until then, and changes no other session or connection |
| `GatewayOutcomes.ConnectionsServeTheirUsers` | internal/gateway/hub.go:92-103 | in every run from the start a connection is only ever bound to a session of a user who presented it |
| `GatewayOutcomes.IdentifiesIffRoom` | internal/gateway/hub.go:52-59 | identify succeeds exactly when fewer than 10000 sessions, and fewer than 10 of the user, survive pruning, and otherwise does nothing but prune |
| `GatewayOutcomes.IdentifyOpensASession` | internal/gateway/hub.go:60-85 | it then leaves one new session of that user and with those intents, whose log and buffer are READY, handed to the connection or lost with it, and every other session and connection as it was |
| `GatewayOutcomes.DetachLeavesTheSession` | internal/gateway/hub.go:113-128 | a detach by the current connection leaves the session detached from now on with its buffer, number, user and intents, and every other one as it was |
| `GatewayTheorems.PublishDeliversOnce` | internal/gateway/hub.go:130-255 | a publication adds to the log and buffer of each session exactly the one event it is owed, if its user is a recipient, under the next number, and hands its connection just that dispatch or terminates and detaches it; any other session, with its connection, stays as it was |
| `GatewayTheorems.PublishSparesOtherConnections` | internal/gateway/hub.go:130-255 | and connections that serve no session are left alone |
| `GatewayTheorems.ContentStaysHidden` | internal/gateway/hub.go:141-147 | no connection of a session without MESSAGE_CONTENT is ever sent message text, live or replayed |
| `GatewayTheorems.BufferHidesContent` | internal/gateway/hub.go:141-147 | nor is any in the replay buffer of such a session |
| `GatewayTheorems.PruneIsExact` | internal/gateway/hub.go:279-298 | pruning removes exactly the sessions detached for the retention, never a connected one, and reports a user once, exactly when the last session goes |
| `GatewayTheorems.OnlyPruningReports` | internal/gateway/hub.go:279-305 | nothing else reports a user gone |
| `GatewayRetention.OnlyPruningRemoves` | internal/gateway/hub.go:279-305 | every operation keeps all sessions that its pruning, if any, leaves |
| `GatewayRetention.SessionsOutliveRetention` | internal/gateway/hub.go:279-286 | a session connected or detached at some time or later survives every run whose clock stays within the retention from then, however often it is resumed and cut off |
| `GatewayRetention.DetachedSessionsAreKept` | internal/gateway/hub.go:113-128 | so in every run a detached session is there until its retention has elapsed |
| `GatewayTheorems.StaleDetachIsIgnored` | internal/gateway/hub.go:113-128 | the detach of a connection that was replaced changes nothing |
| `GatewayTheorems.IndexesAgree` | internal/gateway/hub.go:52-69 | after any run the two indexes hold the same sessions with no empty entry, 10000 and 10 per user are not exceeded, and a session has a connection or a time of detachment, not both |
| `GatewayHub.Hub.Accept` | internal/gateway/service.go:86-92 | a fresh connection is offered HELLO on a queue of bufferSize + 8 |
| `GatewayHub.Hub.Identify` | internal/gateway/hub.go:52-85 | the object graph after identify, refusals for capacity included, is the specified state |
| `GatewayHub.Hub.Resume` | internal/gateway/hub.go:87-111 | likewise for resume, with its checks, takeover and replay loop |
| `GatewayHub.Hub.ResumptionLocked` | internal/gateway/hub.go:99-110 | takeover, replay and RESUMED in their order are the specified resumption |
| `GatewayHub.Hub.Detach` | internal/gateway/hub.go:113-128 | likewise for detach |
| `GatewayHub.Hub.Publish` | internal/gateway/hub.go:130-255 | the loops over distinct recipients and their sessions, in any order, deliver what the set of recipients is owed |
| `GatewayHub.Hub.PublishToSession` | internal/gateway/hub.go:140-147 | the innermost step serves exactly one more session |
| `GatewayHub.Hub.DispatchLocked` | internal/gateway/hub.go:257-270 | appends under the next number and detaches a connection that refuses |
| `GatewayHub.Hub.AppendEventLocked` | internal/gateway/hub.go:272-277 | keeps the newest bufferSize events |
| `GatewayHub.Hub.DetachLocked` | internal/gateway/hub.go:121-128 | detaches only the session's own connection |
| `GatewayHub.Hub.ReplayLocked` | internal/gateway/hub.go:104-109 | the loop offers the missed events in order and stops at the first refusal |
| `GatewayHub.Hub.PruneLocked` | internal/gateway/hub.go:279-286 | the loop removes exactly the expired sessions from both indexes |
| `GatewayHub.Hub.RemoveLocked` | internal/gateway/hub.go:288-298 | removes one session from both indexes and reports a user that has none left |
| `GuildAccess.BitsWithin` | internal/chat/roles_postgres.go:28-39 | the bits that GetAccess joins are within a bound exactly when every role's are |
| `GuildAccess.TopAtMost` | internal/chat/roles_postgres.go:28-39 | the position that GetAccess aggregates is at most a bound exactly when every role's is |
| `GuildHierarchy.ActorIsLimited` | internal/chat/permissions.go:37-44 | a coalition member has no more rank and no more permissions than the coalition's bounds |
| `GuildHierarchy.OutrankedIsLow` | internal/chat/members.go:118-129 | a member that passes checkOutranksMember holds nothing at the bound or above and is not the owner |
| `GuildHierarchy.ChangeWithin` | internal/chat/roles.go:104-114 | the check on the changed bits keeps a role within the ceiling |
| `GuildHierarchy.CreateIsSafe` | internal/chat/roles.go:34-74 | creating a role keeps rank and ceiling of the coalition |
| `GuildHierarchy.UpdateIsSafe` | internal/chat/roles.go:76-125 | so does editing one, the default role included |
| `GuildHierarchy.LowRoleDeleted` | internal/chat/roles.go:127-140 | so does deleting one below the bound, with its assignments |
| `GuildHierarchy.MemberUpdateIsSafe` | internal/chat/members.go:66-116 | so does renaming a member or replacing its roles |
| `GuildHierarchy.StepSafe` | internal/chat/roles.go:34-194 | so does every single action |
| `GuildHierarchy.HierarchyOverRuns` | internal/chat/roles.go:34-194 | over any sequence of actions of non-owners with no top above T: no top of theirs rises above T, the roles at T and above and their outside holders stay the same, and the owner and outsiders at T or above are neither removed nor renamed |
| `GuildHierarchy.CeilingOverRuns` | internal/chat/roles.go:104-114 | and every role below T and every member of the coalition keeps its permissions within the union they started with |
| `GuildHierarchy.ProtectedIffHigh` | internal/chat/members.go:118-129 | whom the coalition cannot touch are exactly the owner and the members whose top is at least T |
| `GuildHierarchy.OwnerIsRarelyForbidden` | internal/chat/permissions.go:33-44 | the owner is forbidden exactly to delete a managed role, to be removed and to leave |
| `GuildHierarchy.NewRolesArePlaced` | internal/chat/roles.go:56-66 | a role the owner creates is above all others, anyone else's is at position 1 and below its creator |
| `GuildOutcomes.HasMeans` | internal/chat/permissions.go:37-40 | a member has permissions exactly as the owner, or when every bound of the roles that apply to them bounds the permissions |
| `GuildOutcomes.OutranksMeans` | internal/chat/permissions.go:42-44 | a member outranks a position exactly as the owner or by a role above it |
| `GuildOutcomes.OutranksMemberMeans` | internal/chat/members.go:118-130 | a member outranks another exactly if that is not the owner and, unless the first is, all roles of the other are below one of theirs |
| `GuildOutcomes.CreateRoleOutcome` | internal/chat/roles.go:34-74 | a role is created exactly by who may manage roles, may use all its permissions and, unless the owner, is above position 1; it is stored as asked, on top or at position 1, and nothing else changes; each refusal has its condition |
| `GuildOutcomes.UpdateRoleOutcome` | internal/chat/roles.go:76-125 | a role is updated exactly when something is asked for, the caller may manage roles and is above it, and the permissions that change and the new position are within their own; each field is then the requested one where given and the old one where not, and every other role and all members stay; each refusal has its condition |
| `GuildOutcomes.UpdateReachesHolders` | internal/chat/roles_postgres.go:24-51 | after an update the access of each holder is what their other roles give, joined with the new permissions and raised to the new position, and everybody else has the access they had |
| `GuildOutcomes.DeleteRoleOutcome` | internal/chat/roles.go:127-140 | a role is deleted exactly if it is not managed, by who may manage roles and is above it; its assignments go with it and nothing else |
| `GuildOutcomes.UpdateMemberOutcome` | internal/chat/members.go:66-116 | nickname and roles change exactly if the caller may change each; then the nickname is the one given, the assigned roles are exactly those requested, and what was not given stays |
| `GuildOutcomes.RemoveMemberOutcome` | internal/chat/members.go:132-144 | a member is removed exactly by somebody else who may manage members and outranks them, and nobody else is |
| `GuildOutcomes.LeaveAndJoinOutcome` | internal/chat/members.go:146-155 | exactly the members but the owner can leave, and an invite makes a member without roles of whoever is none |
| `GuildService.GuildStore.GetAccess` | internal/chat/roles_postgres.go:24-51 | the row-by-row OR and maximum is the access of the member, in whatever order rows come |
| `GuildService.GuildStore.CreateRole` | internal/chat/roles.go:34-74 | the rows and the error are those of the action |
| `GuildService.GuildStore.UpdateRole` | internal/chat/roles.go:76-125 | likewise, each field changed or kept |
| `GuildService.GuildStore.DeleteRole` | internal/chat/roles.go:127-140 | likewise, with the cascade to assignments |
| `GuildService.GuildStore.AssignRoles` | internal/chat/roles.go:155-194 | the loops accept exactly when every added and removed role is outranked and none is unknown or managed, and replace the set |
| `GuildService.GuildStore.AnyOutOfReach` | internal/chat/roles.go:178-187 | true exactly when some role that changes is not outranked |
| `GuildService.GuildStore.SetMemberRoles` | internal/chat/roles_postgres.go:113-131 | delete and inserts leave exactly the given set, of that member only |
| `GuildService.GuildStore.UpdateMember` | internal/chat/members.go:66-116 | the rows and the error are those of the action |
| `GuildService.GuildStore.CheckOutranksMember` | internal/chat/members.go:118-129 | refuses the owner and members not below the caller |
| `GuildService.GuildStore.RemoveMember` | internal/chat/members.go:131-144 | the rows and the error are those of the action |
| `GuildService.GuildStore.LeaveGuild` | internal/chat/members.go:146-155 | everyone but the owner can leave |
| `AuthSessions.OpenKeeps` | internal/auth/postgres.go:204-226 | opening a session keeps: its last issued pair is what its row and its one unconsumed token hold |
| `AuthSessions.RotateKeeps` | internal/auth/postgres.go:136-157 | so does a rotation |
| `AuthSessions.EndKeeps` | internal/auth/postgres.go:160-178 | so does ending sessions |
| `AuthSessions.RotateSpendsOrEnds` | internal/auth/postgres.go:125-134 | a refresh spends its token or ends the session of a known token that is no longer good |
| `AuthSessions.EndedForGood` | internal/auth/postgres.go:125-134 | no token ever issued for an ended session works later, and none is issued any more |
| `AuthEmailTokens.CreateKeeps` | internal/auth/account_postgres.go:13-47 | creating a token keeps the spacing and leaves one unconsumed token at most |
| `AuthEmailTokens.AtMostPerSpan` | internal/auth/account_postgres.go:23-31 | n tokens of one user and purpose span at least n - 1 cooldowns |
| `AuthAccounts.NewUserKeeps` | internal/auth/postgres.go:30-52 | a new user comes with an identity and breaks no uniqueness |
| `AuthAccounts.LinkKeeps` | internal/auth/account_postgres.go:148-162 | linking keeps one identity per provider and one user per subject |
| `AuthAccounts.UnlinkKeeps` | internal/auth/account_postgres.go:193-209 | unlinking leaves the user another identity |
| `AuthService.ApplyKeeps` | internal/auth/service.go:78-233 | every call keeps all invariants of accounts, sessions and email tokens, and continues the state it found |
| `AuthService.RunKeeps` | internal/auth/service.go:78-233 | so does every run |
| `AuthTheorems.OneRefreshToken` | internal/auth/postgres.go:101-158 | in every reachable state a session has exactly one unconsumed refresh token, which expires with it |
| `AuthTheorems.AcceptedIffLatest` | internal/auth/postgres.go:180-202 | an access token is accepted exactly while it is the last one issued for a session that is not revoked and in time |
| `AuthTheorems.ReplayEndsTheSession` | internal/auth/postgres.go:125-134 | presenting a consumed or expired refresh token is refused and ends the session: no token ever issued for it works again |
| `AuthTheorems.RefreshWorksOnce` | internal/auth/postgres.go:136-138 | a refresh token renews at most once, whatever happens in between |
| `AuthTheorems.ResetEndsEverySession` | internal/auth/account_postgres.go:94-134 | a successful reset leaves none of the user's sessions alive, for good |
| `AuthTheorems.EmailTokensAreSpaced` | internal/auth/account_postgres.go:23-36 | two tokens of one user and purpose are a cooldown apart, and not both unconsumed |
| `AuthTheorems.EmailTokensPerSpan` | internal/auth/account_postgres.go:23-31 | a span holds at most span / cooldown + 1 of them |
| `AuthTheorems.EmailTokenWorksOnce` | internal/auth/account_postgres.go:49-134 | a token is accepted only for its purpose, unconsumed and before expiry, and once spent is refused for ever without any effect |
| `AuthTheorems.IdentitiesNeverRunOut` | internal/auth/account_postgres.go:183-214 | every user always has an identity, one per provider at most, and each subject belongs to one user |
| `AuthTheorems.OnlyLinkAddsGoogle` | internal/auth/google_postgres.go:83-136 | without an explicit link an existing user never gains a Google subject |
| `AuthTheorems.IssuedTokensWork` | internal/auth/service.go:202-233 | a pair of tokens goes to the session of whoever registered, knew the password, held the refresh token or owns the Google subject, and over every later run its access token works exactly until its lifetime is over, a newer pair is issued or the session is ended |
| `AuthTheorems.ResetChangesThePassword` | internal/auth/account_postgres.go:106-118 | after a reset a password signs in at that address exactly when it verifies against the new hash |
| `AuthTheorems.VerifiedOnlyByProof` | internal/auth/account_postgres.go:77-86 | in every run an address is verified only if some call proved it, by a token sent to it or by Google's word, and it stays so |
| `AuthOutcomes.RefreshOutcome` | internal/auth/postgres.go:101-158 | a refresh succeeds exactly when its token is known, unconsumed and in time and its session is neither revoked nor over; the session then holds the new pair, the old token is consumed and no other row changes; otherwise the session of a known token is revoked, and an unknown token changes nothing |
| `AuthOutcomes.RefreshTokensWork` | internal/auth/service.go:156-186 | over every later run the refresh token of a pair issued at t renews exactly before t plus its lifetime, unless a newer pair was issued or the session was revoked |
| `AuthOutcomes.LogoutOutcome` | internal/auth/postgres.go:160-178 | a logout revokes exactly the session that holds both tokens, and is refused exactly if there is none |
| `AuthOutcomes.RegisterOutcome` | internal/auth/postgres.go:23-60 | an address registers exactly if it is no user's and no password identity's; one unverified user, its identity and its session are added and nothing else changes |
| `AuthOutcomes.LoginOutcome` | internal/auth/service.go:120-154 | a login opens a session of the user whose password at that address verifies, and is refused exactly if there is none |
| `AuthOutcomes.SignInOutcome` | internal/auth/google_postgres.go:83-136 | a known Google subject signs its user in; an unknown one becomes a new user with a verified address exactly if that address is free |
| `AuthOutcomes.LinkOutcome` | internal/auth/account_postgres.go:136-181 | a link succeeds exactly for a user without a Google identity and a subject of nobody; it adds the identity, and verifies the address exactly if Google vouches for that very one |
| `AuthOutcomes.UnlinkOutcome` | internal/auth/account_postgres.go:183-214 | an unlink succeeds exactly if the user has that method and the other one, and takes away exactly that method of that user |
| `AuthOutcomes.SendTokenOutcome` | internal/auth/account_postgres.go:13-47 | a token is created exactly if none of the user and purpose was within the last minute, for a day or an hour, and spends just the open ones it replaces |
| `AuthOutcomes.VerifyOutcome` | internal/auth/account_postgres.go:67-92 | an address is verified exactly by a good token that was sent to it; a good token is spent either way, and nothing else changes |
| `AuthOutcomes.ResetOutcome` | internal/auth/account_postgres.go:94-134 | a reset succeeds exactly with a good token for an address at which the user has a password; it replaces that password, verifies the address, revokes every session of the user and spends the open reset tokens, and nothing else changes |
| `AuthStore.Store.CreatePasswordUser` | internal/auth/postgres.go:23-60 | the tables and the error are those of the call, a taken address leaving no trace |
| `AuthStore.Store.Login` | internal/auth/service.go:120-154 | likewise |
| `AuthStore.Store.RotateSession` | internal/auth/postgres.go:101-158 | likewise, the refused rotation committing the revocation |
| `AuthStore.Store.HasOpenToken` | internal/auth/postgres.go:166-169 | the subquery finds exactly an unconsumed refresh token of the session |
| `AuthStore.Store.RevokeSession` | internal/auth/postgres.go:160-178 | row by row, a matching pair of current tokens and nothing else ends the session, and no affected row is the error |
| `AuthStore.Store.FindUserByAccessToken` | internal/auth/postgres.go:180-202 | finds the user of a live session with the token, and nobody exactly when the token is not accepted |
| `AuthStore.Store.SignInGoogle` | internal/auth/google_postgres.go:83-136 | likewise, a taken address being refused and never linked |
| `AuthStore.Store.LinkGoogle` | internal/auth/account_postgres.go:136-181 | likewise |
| `AuthStore.Store.Providers` | internal/auth/account_postgres.go:193-200 | the loop counts the user's rows and finds the provider |
| `AuthStore.Store.DeleteIdentities` | internal/auth/account_postgres.go:207-209 | deletes exactly the rows of that user and provider |
| `AuthStore.Store.UnlinkAuthenticationMethod` | internal/auth/account_postgres.go:183-214 | likewise, the last method being refused |
| `AuthStore.Store.HasRecentToken` | internal/auth/account_postgres.go:23-28 | true exactly when a token of the user and purpose was created after the time |
| `AuthStore.Store.SpendTokens` | internal/auth/account_postgres.go:32-34 | consumes exactly the unconsumed tokens of the user and purpose |
| `AuthStore.Store.CreateEmailToken` | internal/auth/account_postgres.go:13-47 | creates exactly outside the cooldown, spending the earlier tokens |
| `AuthStore.Store.ConsumeEmailToken` | internal/auth/account_postgres.go:49-65 | returns and spends a token exactly when it is acceptable |
| `AuthStore.Store.VerifyEmail` | internal/auth/account_postgres.go:67-92 | the tables and the error are those of the call, a token for an old address being spent |
| `AuthStore.Store.ResetPassword` | internal/auth/account_postgres.go:94-134 | likewise |
| `RateLimiter.NeverOverCapacity` | internal/httpapi/limiter.go:43-55 | the map never holds more than maxEntries keys |
| `RateLimiter.RefusedIff` | internal/httpapi/limiter.go:43-62 | a key is refused exactly if its limit was granted in its running window, or it has no entry and maxEntries others are running |
| `RateLimiter.AnswerOutcome` | internal/httpapi/limiter.go:37-67 | a key that has room has an entry of its running or new window afterwards with one more grant if allowed, which is what the answer reports; other running entries stay and none appears; for want of room the answer is to wait a window |
| `RateLimiter.RefusedEarlyOnlyInACrowd` | internal/httpapi/limiter.go:43-51 | in every run, a key that was granted less than the limit within a window is refused only if at least maxEntries other keys were taken within the last window |
| `RateLimiter.FirstTakeIsAllowed` | internal/httpapi/limiter.go:37-67 | the first call is allowed, whenever limit and maxEntries are positive |
| `RateLimiter.AtMostTwiceTheLimit` | internal/httpapi/limiter.go:37-67 | a key that is not reset is allowed at most twice the limit in any closed interval of one window's length |
| `RateLimiter.RefusedOnlyAtTheLimit` | internal/httpapi/limiter.go:56-62 | a key is refused only if it has no entry and maxEntries others are running, or after the whole limit was granted within less than one window |
| `RateLimiter.RetryAfterIsExact` | internal/httpapi/limiter.go:59-62 | a key with room that is refused is allowed again exactly from the reported time on |
| `RateLimiter.RemainingIsExact` | internal/httpapi/limiter.go:63-66 | what is reported as remaining is exactly what a burst within the window still gets |
| `RateLimiter.PurgingIsUnobservable` | internal/httpapi/limiter.go:43-55 | every answer is a refusal of a key without entry when maxEntries others are running, or that of an unbounded limiter that never purges |
| `RateLimiter.FixedWindowLimiter.Take` | internal/httpapi/limiter.go:37-67 | the map and the answer are the specified ones |
| `RateLimiter.FixedWindowLimiter.Purge` | internal/httpapi/limiter.go:44-48 | the loop drops exactly the expired keys |
| `RateLimiter.FixedWindowLimiter.Reset` | internal/httpapi/limiter.go:69-73 | forgets one key |
| `Paging.DescendingIsSorted` | internal/chat/postgres.go:212-213 | the ordered rows are strictly descending and exactly the selected ones |
| `Paging.CursorsAccepted` | internal/chat/service.go:572-594 | a cursor is accepted exactly if empty, or with a real ID, of the kind asked for and with a real time or, for channels, a position that is not negative; it means what it holds |
| `Paging.ListMessagesOutcome` | internal/chat/service.go:427-435 | a page is answered exactly for an accepted cursor, a limit from 1 to 100 and a participant, and each other case has its error |
| `Paging.PageIsTheTop` | internal/chat/service.go:427-453 | a page is all rows below the cursor, or the greatest limit of them with a cursor at the last |
| `Paging.WalkDescends` | internal/chat/service.go:427-453 | following the cursors returns strictly descending rows, none twice, each from a table it asked, whatever others insert or delete |
| `Paging.NothingIsMissed` | internal/chat/service.go:427-453 | a walk to the end returns every row that was there throughout |
| `Paging.FixedTable` | internal/chat/service.go:427-453 | on a table that stays the same the pages concatenate to the sorted list |
| `Paging.WalksEnd` | internal/chat/service.go:436-450 | a walk ends within as many pages as there are rows |
| `LikePattern.EscapedIsLiteral` | internal/chat/readstate_postgres.go:163-165 | an escaped query matches itself, up to case, and nothing else |
| `LikePattern.SearchFindsSubstrings` | internal/chat/readstate_postgres.go:122-128 | a message matches the search pattern exactly when it contains the query, up to a per-character fold |
| `ReadPosition.PositionIsTheGreatest` | internal/chat/readstate_postgres.go:54-66 | as long as no update finds its last-read message deleted, the position only rises and is the greatest of the accepted targets, in any order |
| `ReadPosition.UpdateOutcome` | internal/chat/readstate_postgres.go:26-71 | an update is answered exactly for a participant and a message of that channel; the target is stored, and no other row changes, exactly unless the position is at an existing message at or after it |
| `ReadPosition.ChangedIffStored` | internal/chat/readstate_postgres.go:53-71 | the answer says changed exactly when another position is stored |
| `ReadPosition.BackwardIffDeleted` | internal/chat/readstate_postgres.go:54-58 | an update moves a position back exactly when its message is deleted and the target is earlier |
| `ReadPosition.CanMoveBackward` | internal/chat/readstate_postgres.go:16-17 | a run in which it does |
| `ReadPosition.ReadStore.UpdateReadState` | internal/chat/readstate_postgres.go:18-72 | the row and the answer are the specified ones |
| `VoiceRegistry.StepKeeps` | internal/voice/service.go:81-187 | every call keeps: the notices tell the truth and are in order |
| `VoiceRegistry.JoinOutcome` | internal/voice/service.go:81-120 | exactly who may connect is in the channel afterwards, with the flags asked for, no video and no stream; a stay in another channel ends first; everybody else stays |
| `VoiceRegistry.UpdateOutcome` | internal/voice/service.go:122-161 | an update succeeds exactly for who is in a channel, may still connect and may stream if they turn video or streaming on; each flag is then as asked, or as it was if nothing was; who may not connect any more is put out, and any other refusal changes nothing |
| `VoiceRegistry.LeaveOutcome` | internal/voice/service.go:163-187 | exactly who is in a channel can leave it; the room is closed, the guild told, and everybody else stays |
| `VoiceRegistry.NoticesTellTheTruth` | internal/voice/service.go:104-119 | folding the notices by guild and user gives exactly the entries |
| `VoiceRegistry.RoomsCloseOnce` | internal/voice/service.go:110-118 | every left notice comes right after closing the room the user was seen in, rooms close at no other time, and nobody is announced elsewhere before that |
| `VoiceInterleaving.SessionsNeverReturn` | internal/voice/service.go:104-108 | a session that a user holds was held all along, in one room; an ended one never comes back |
| `VoiceInterleaving.UpdateHitsTheSessionItRead` | internal/voice/service.go:123-161 | under any interleaving a successful update changes only flags of the very session it read, which the user held throughout |
| `VoiceInterleaving.UpdateSucceedsIffStillHeld` | internal/voice/service.go:140-161 | whatever runs in between, the second section changes something exactly if the user still holds the session that was read, and then each flag is as asked or as it just was |
| `VoiceInterleaving.EndedSessionsStayEnded` | internal/voice/service.go:140-145 | if that session ended, the update is refused and changes nobody |
| `VoiceService.Service.Join` | internal/voice/service.go:81-120 | entries and effects are those of the call, without a provider nothing happens |
| `VoiceService.Service.UpdateState` | internal/voice/service.go:122-161 | likewise, lost access evicting the user |
| `VoiceService.Service.Evict` | internal/voice/service.go:171-187 | likewise, telling whether the user was there |
| `VoiceService.Service.Leave` | internal/voice/service.go:163-169 | likewise |
| `VoiceService.Service.SortStates` | internal/voice/sort.go:5-8 | the same states, sorted |
| `VoiceService.Service.List` | internal/voice/service.go:189-204 | exactly the states of those in the channel, each once, in the order of their user IDs |
| `ChannelTree.ActKeepsTree` | internal/chat/service.go:130-311 | every call keeps each channel under a parent of the right kind in its own guild |
| `ChannelTree.ActKeepsUnique` | internal/chat/channels_postgres.go:202-215 | and one thread per starter message, one direct channel per pair |
| `ChannelTree.ParentsAreRight` | internal/chat/service.go:219-311 | so it is after any calls |
| `ChannelTree.AtMostThreeLevels` | migrations/000008_channel_kinds.up.sql:6-18 | no path of parents has more than three channels or meets itself |
| `ChannelTree.NoTwins` | migrations/000008_channel_kinds.up.sql:8-20 | starter messages and direct keys stay unique |
| `ChannelTree.DeletionIsExact` | internal/chat/channels_postgres.go:186-200 | deleting a channel removes it and its threads and nothing else, and only a category leaves channels without parent |
| `ChannelTree.CreateChannelOutcome` | internal/chat/service.go:130-174 | a channel is created exactly by a permitted participant, of a kind that can be, with a topic only for text, under nothing or a category of the guild, and is stored as asked; each refusal has its condition |
| `ChannelTree.UpdateChannelOutcome` | internal/chat/service.go:219-269 | a channel is updated exactly under those conditions, threads by name only; each field is then the given one or the old one, and every other row stays |
| `ChannelTree.DeleteChannelOutcome` | internal/chat/service.go:271-284 | a guild channel is deleted exactly by a permitted participant, with its threads and nothing else |
| `ChannelTree.CreateThreadOutcome` | internal/chat/service.go:285-311 | a thread is created exactly under a text channel of a guild, by who may send there, and from no message or one that exists and has none; its row is the given one |
| `ChannelTree.OpenDirectOutcome` | internal/chat/channels_postgres.go:270-314 | with another existing user there is a direct channel of the pair afterwards, the one there was or a new one, and no other row changes |
| `ChannelTree.CascadeOutcome` | migrations/000003_core_chat.up.sql:24 | a guild takes exactly its channels with it, and a deleted message is no thread's starter any more |
| `ChannelTree.ChannelStore.MaxPosition` | internal/chat/channels_postgres.go:85-87 | one more than the greatest position in the guild, threads aside |
| `ChannelTree.ChannelStore.CreateChannel` | internal/chat/service.go:130-165 | the rows and the error are those of the call, at the end of the guild |
| `ChannelTree.ChannelStore.UpdateChannel` | internal/chat/service.go:219-269 | likewise, each field changed or kept |
| `ChannelTree.ChannelStore.DeleteChannel` | internal/chat/channels_postgres.go:186-200 | likewise, with threads deleted and references cleared |
| `ChannelTree.ChannelStore.CreateThread` | internal/chat/service.go:285-311 | likewise |
| `Attachments.CreateKeepsQuota` | internal/chat/attachments_postgres.go:34-40 | creating keeps every uploader within 25 unused attachments |
| `Attachments.CreateOutcome` | internal/chat/attachments_postgres.go:24-53 | an attachment is created exactly if the uploader has fewer than 25 on no message, pending and as given, and nothing else changes |
| `Attachments.MarkReadyOutcome` | internal/chat/attachments_postgres.go:73-85 | a row that is there becomes ready with all else as it was, and a missing one is reported |
| `Attachments.DeleteOutcome` | internal/chat/attachments_postgres.go:87-103 | exactly an unused attachment of the caller goes, its key queued; one in use and one that is not theirs are told apart |
| `Attachments.PostOutcome` | internal/chat/postgres.go:136-191 | a message is posted exactly if it names at most ten attachments, none twice, each a ready one of its author and channel on no message; then it is stored, exactly those are on it, and nothing else changes |
| `Attachments.DeleteMessageOutcome` | migrations/000010_attachments.up.sql:9 | a message takes exactly its attachments with it, their keys queued |
| `Attachments.DeleteChannelOutcome` | migrations/000010_attachments.up.sql:7 | a channel takes exactly its messages and the attachments made for it or on them, their keys queued |
| `MediaRuns.ApplyInv` | migrations/000010_attachments.up.sql:5-39 | every step, sweeps interleaved anywhere, keeps: live and queued keys apart, ready rows with their object, quota, and attached rows matching their message |
| `MediaRuns.SweepsSpareLiveObjects` | internal/media/janitor.go:51-72 | no sweep, however far behind, deletes the object of a live row; a ready row has its object |
| `MediaRuns.OnlyLateUploadsAreOrphaned` | internal/media/janitor.go:58-71 | an object is some row's, or queued for deletion, or was uploaded when its row was gone already |
| `MediaRuns.QuotaIsNeverExceeded` | internal/chat/attachments_postgres.go:24-53 | nobody ever has more than 25 attachments on no message |
| `MediaRuns.AttachedMatchesItsMessage` | internal/chat/postgres.go:172-183 | an attached row is ready and of its message's channel and author |
| `MediaRuns.AttachedStays` | internal/chat/attachments_postgres.go:87-148 | it never moves, changes or expires, and keeps its object, until its message or channel is deleted |
| `MediaRuns.YoungRowsStay` | internal/media/janitor.go:9-12 | in every run, no row that nobody deletes disappears within an hour, finalized meanwhile or not |
| `MediaRuns.PostIsAllOrNothing` | internal/chat/postgres.go:136-191 | a message gets all of its attachments, at most 10 and distinct, or nothing changes |
| `MediaRuns.PendingOutlivesItsURL` | internal/media/janitor.go:10-11 | in every run, sweeps keep a row while its upload URL works, if that was signed within 45 minutes of the row and nobody deletes it |
| `MediaRuns.LateURLsOutliveTheirRow` | internal/chat/attachments.go:83-85 | these 45 minutes are exact: a sweep can remove a pending row whose URL works exactly when it was signed later |
| `MediaRuns.SweepExpiresExactly` | internal/chat/attachments_postgres.go:137-148 | a sweep expires exactly the rows on no message that are too old, and queues them |
| `MediaStore.AttachmentStore.CreateAttachment` | internal/chat/attachments_postgres.go:22-53 | counts and inserts as specified |
| `MediaStore.AttachmentStore.CountUnused` | internal/chat/attachments_postgres.go:34-37 | the count of the uploader's rows on no message |
| `MediaStore.AttachmentStore.MarkAttachmentReady` | internal/chat/attachments_postgres.go:73-85 | marks one row or reports that it is gone |
| `MediaStore.AttachmentStore.DeleteAttachment` | internal/chat/attachments_postgres.go:87-103 | deletes an unused row of the caller and tells the other cases apart |
| `MediaStore.AttachmentStore.DeleteRows` | migrations/000010_attachments.up.sql:30-39 | row by row, the trigger queues exactly the keys of what is deleted, and a key that is queued keeps its time |
| `MediaStore.AttachmentStore.HasDuplicates` | internal/chat/service.go:395-401 | true exactly when an attachment is named twice |
| `MediaStore.AttachmentStore.Attach` | internal/chat/postgres.go:173-176 | affects as many rows as were named exactly when every one of them was eligible |
| `MediaStore.AttachmentStore.CreateMessage` | internal/chat/postgres.go:136-191 | the message with all attachments, or a rollback to what was there |
| `MediaStore.AttachmentStore.DeleteMessage` | migrations/000010_attachments.up.sql:9 | the cascade to its attachments and their queue entries |
| `MediaStore.AttachmentStore.ExpireAttachments` | internal/chat/attachments_postgres.go:137-148 | deletes and queues exactly the stale rows |
| `MediaStore.AttachmentStore.PendingStorageDeletions` | internal/chat/attachments_postgres.go:150-165 | queued keys, oldest first and then by key, each once, none left out that comes sooner, and all of them if they fit the limit |
| `MediaStore.Janitor.DeleteListed` | internal/media/janitor.go:63-71 | the loop deletes and dequeues each listed key whose deletion does not fail |
| `MediaStore.Janitor.Sweep` | internal/media/janitor.go:51-72 | an undisturbed pass deletes the objects of at most 100 queued keys and dequeues just those whose deletion did not fail |

## Left out

- GatewayHub.Hub.Publish: stands for all publish methods, which share their loops; that publishToUser takes one recipient without a check for duplicates is the case of a list of one.
- GatewayTheorems.PruneIsExact: counts the reports of gone users; the callback itself runs outside the lock, by when the user may have a session again.
- VoiceRegistry.NoticesTellTheTruth: is about calls one after the other; notices are sent outside the lock, so interleaved calls may send them in another order.
- RateLimiter.AtMostTwiceTheLimit: needs a clock that does not run backwards, and Reset excludes the key it names.
- Failures of JSON encoding: Marshal is total here. In the source a failing one would leave a hole in the sequence numbers, since the number advances first.
- The text of cursors: base64 and JSON are taken as one-to-one, so a cursor is its fields, or garbage.
- A pattern that ends in the escape character, which SQL reports as an error; no escaped query makes one.
- The overflow of role positions beyond 32 bits, where the database refuses the row.
- Interleavings inside one service call on roles or channels, or inside one transaction elsewhere, such as two first inserts of one read state or a login that races a password reset.
- The first steps of Google sign-in (state, exchange code, PKCE), which consume a row and then make one of the calls modelled here.
- Invites, presence, reactions, message editing, guild settings and the lists other than messages, which page in the same way: they would add easy members only.
- HTTP, websocket, SMTP, LiveKit and S3 traffic, configuration and migrations as programs.
- Cryptography and randomness: hashes, tokens and IDs are opaque values without collisions.
- Deleting a user account, which no code does; the cascade from a guild is that from its channels.
