# Varco: a verified model

Varco lets outside apps read and control parts of a Home Assistant installation through a relay that cannot read what it
carries. This project models the parts of Varco on which that promise rests and proves, with Dafny, what each of them is for.
Dictionaries keep their insertion order (`Dict.dfy`), times are integers or reals, and every quantity that the program keeps in
16 or 32 bits is wrapped explicitly.

| files | what they model |
|---|---|
| `Authority*.dfy` | the authority: one answered message is one step over sessions, grants, two limiters, outboxes and the store; a share claim may also take its two steps apart |
| `Policy*.dfy`, `Limit*.dfy`, `Outbox.dfy` | scopes, trimming and restrictions, and what each covers by its characters; the two kinds of limiter, and the restriction limiters over every run; the coalescing outbox |
| `Store*.dfy`, `GrantIds.dfy`, `Share*.dfy` | access requests, grants and shares; what each operation stores and what every sequence of them keeps; when grant ids stay distinct; claims in two steps, and that they need the secret |
| `Json*.dfy`, `Utf8.dfy` | canonical JSON against a reader of RFC 8259; the hand-written UTF-8 codec against RFC 3629 |
| `Crc*.dfy`, `PanelZip.dfy` | the table-driven CRC-32 and the ZIP writer, against a bit-by-bit CRC, its arithmetic, and a ZIP reader |
| `Channel.dfy` | the counter-nonce channel between client and authority over a hostile relay |
| `Bridge*.dfy`, `Room*.dfy`, `Reconnect.dfy` | the bridge's room and gates, and what every socket is sent over a run; the authority's reconnect loop |
| `Harvest*.dfy` | the walk that collects entities from a dashboard config |

Where the source updates objects in place, a class does the same and each of its methods is proved against a function on values
(`VarcoAuthority` against `AuthoritySpec`, `MemoryVarcoStore` against `StoreSpec`, `Room` against `RoomSpec`, `Panel` against
`ZipFormat` and `Crc32`, `Harvester` against `HarvestSpec`). The theorems are proved of those functions and say what they amount
to; limits, error codes and scope keys are written out in them once more.

Some expectations do not hold of the code as it stands; for each there is a counterexample and the exact condition:

- The comment at `packages/client/src/encoding.ts:24` speaks of code point order, but the code compares UTF-16 code units. The
  client and the authority print a value alike exactly if no object in it has two keys that clash: at the first code points in
  which they differ, one key has a character above U+FFFF and the other does not, but its unit there is greater than the
  character's high surrogate, or is that surrogate alone with a unit from U+E000 on after it. Lone surrogates are included; in
  Unicode text it means that the first units that differ are a surrogate and one from U+E000 on (`EndsAgree`, `OrdersAgree`,
  `ClashInUnicode`, `OrdersDisagree`).
- The nonces of both ends agree exactly below 2^32. In every run the client opens the server's envelope `i` exactly if its
  counter is `i` modulo 2^32, so that after 2^32 messages it accepts the first once more (`NoncesAgree`, `ClientOpensExactly`,
  `ReplayAfterWrap`).
- The archive that `createZip` makes of a list of files reads back exactly if there are fewer than 65536 of them, each name is
  shorter than 65536 bytes, and each content and both parts of the archive are shorter than 2^32 bytes; one file with a longer
  name does not read back, nor do 65536 empty files (`ReadsBackExactly`, `TooLongOrTooMany`). This concerns `createZip` alone: its
  only caller passes two files with short fixed names (`custom_components/varco/frontend/src/panel.ts:1174`).
- UTF-8 output conforms to RFC 3629 exactly for strings without lone surrogates; the round trip holds for all strings
  (`EncodesUtf8`, `RoundTrip`).
- Limiters whose ids are equal, as they are by default, share one list of hits. An admission then records one hit per limiter
  (`RecordsPerRule`, `SharedIdRecordsTwice`), and one limiter may prune what another still needs: a count over ten seconds that
  comes before a cooldown or a count over sixty lets a second operation through after twenty (`SharedListForgets`). A shared list
  keeps a cooldown in every run exactly if a limiter that denies for so long comes before any that prunes to less, and it is the
  full record of a window exactly if none prunes to less, or one that denies for so long comes before any that does; the one
  other case is that nothing is admitted at all (`CooldownKeptExactly`, `RecordKeptExactly`).
- A protocol mismatch pauses the relay without being counted as a terminal failure (`MismatchIsNotCounted`).
- Two grants may share an id, and lookup, revocation and deletion by that id then miss one of them: a grant from a request is
  named after the request, one from a share after the claimant, who may have taken the request's id as name, and a claim is not
  signed (`ClaimUnderTakenName`, `SignaturesNeeded`). Lookup finds every grant exactly if the ids are distinct; a claim that goes
  through keeps them so exactly if no other consumer's grant has the claimant's name as id, and a run keeps them so exactly if
  no step of it stores a grant under an id that another consumer's grant has at that time (`LookupFindsAllIffDistinct`,
  `DistinctAfterClaimIff`, `GrantIdsStayDistinct`).
- `trim_manifest` taken alone widens a scope exactly if an approved value stands in the camelCase list only (`GainsExactly`,
  `CamelCaseRequestGains`). No request of the program is such: they are stored in canonical form (`manifest.py:46-78`,
  `models.py:76`), for which trimming never widens (`NeverWidens`).
- Two claims of one consumer that both pass the checks before either takes the lock use up two claims if there are two
  (`SecondClaimOfConsumer`).

## Model

The theorems come first, file by file; the methods that follow the source step by step come after them.

| member | source | states |
|---|---|---|
| AuthorityRuns.RunSafety | custom_components/varco/authority.py:122-157 | in every run, a reply with states, a snapshot, history or a camera image, and every service call passed on, comes from an open session with a consumer whose grant is unrevoked and unexpired at that step, with every entity granted by a listed scope, every restriction in force passed by its own terms and every limiter by the hits under its id; states and snapshots give each listed entity its own state; no other step passes on a call |
| AuthorityRuns.DataIsJustified | custom_components/varco/authority.py:423-532 | the same for one message in any state, reachable or not |
| AuthorityRuns.EnforcedExactly | custom_components/varco/authority.py:534-549 | enforcement passes exactly if every restriction in force lets the operation pass by its own terms (expiry, schedule, PIN, what a template renders to) and the limiters in force do by the hits under their ids |
| AuthorityRuns.OwnListPasses | custom_components/varco/authority.py:551-571 | the first limiter in force with each id, so every one whose id is its own, has met its terms on the whole list under its id |
| AuthorityRuns.ExpandIs | custom_components/varco/authority.py:693-703 | a request expands to exactly the entities asked for, each once: those named, and for a wildcard the known ones of its domain that some scope grants |
| AuthorityAnswers.GateExactly | custom_components/varco/authority.py:423-433 | what the gate answers: a closed session is revoked, an unknown or unbound one not authenticated, and one whose grant is not good is told so and closed |
| AuthorityAnswers.AnsweredExactly | custom_components/varco/authority.py:438-532 | for each type of message under a good grant that is not refused for its rate: the exact condition for data, in scopes listed in the manifest and restrictions in force, and the error code otherwise |
| AuthorityAnswers.CallExactly | custom_components/varco/authority.py:506-532 | a call is passed on, for the given and the resolved targets each once, exactly if every one of them is granted by a listed action and the restrictions permit it; otherwise nothing is passed on |
| AuthorityEffects.SessionsExactly | custom_components/varco/authority.py:423-465 | what a data-plane message does to the sessions: it creates, closes, or changes the one subscription it answers with, and touches no other session |
| AuthorityEffects.LoggedExactly | custom_components/varco/authority.py:410-549 | what a data-plane message adds to the log: an entry of what its reply tells under a good grant, and nothing otherwise |
| AuthorityEffects.OwnerActsExactly | custom_components/varco/authority.py:216-252 | revoking, deleting and changing restrictions by id: whether a grant is found, what is stored for its consumer afterwards, which sessions are closed or lose their subscriptions, the notice each gets, and the entry in the log; nothing else changes |
| AuthorityEffects.PushedExactly | custom_components/varco/authority.py:280-290 | a changed state goes exactly once to each open session for each of its subscriptions with the entity, and to nobody else |
| AuthorityEffects.QueueExactly | custom_components/varco/authority.py:292-320 | queueing, flushing and discarding change the outbox, or the existence, of the one session named |
| AuthorityEffects.AuthenticatedExactly | custom_components/varco/authority.py:391-408 | the exact condition of each answer to an authentication, and what it stores, binds and logs |
| AuthorityEffects.RequestExactly | custom_components/varco/authority.py:322-362 | an access request that is answered as pending was signed and had a valid manifest; it keeps the id of the pending request of its consumer or gets the new one, is stored, and binds the session; any other changes only the log |
| AuthorityEffects.ClaimLoggedExactly | custom_components/varco/authority.py:364-388 | a claim logs that its secret was wrong, or that it minted a grant, and nothing otherwise |
| AuthoritySessions.ClosedGetsNothing | custom_components/varco/authority.py:423-433 | once a session is closed, every later data-plane message of it is refused until the session is discarded, whatever happens between |
| AuthoritySessions.RevokedGetNothing | custom_components/varco/authority.py:216-232 | after a grant is revoked or deleted, the sessions bound to its consumer get no data until discarded |
| AuthoritySessions.SubscriptionFromSnapshot | custom_components/varco/authority.py:449-460 | every subscription a session has was listed, with the same entities, in a snapshot that an earlier message of the session was answered with |
| AuthoritySessions.PushedWasGranted | custom_components/varco/authority.py:280-290 | a pushed state goes to an open session under a subscription that an earlier, justified snapshot of the session listed with that entity |
| AuthorityBindings.StepBinds | custom_components/varco/authority.py:322-408 | a step binds a session to the consumer of an access request, authentication or claim of it that is answered with success, and to no other; only discarding unbinds it |
| AuthorityBindings.BoundByLast | custom_components/varco/authority.py:322-408 | in every run, a session's consumer is that of the last such message since it was last discarded |
| AuthorityBindings.DataWasBound | custom_components/varco/authority.py:423-433 | every reply with data goes to a session that such an earlier message bound to the very consumer whose unrevoked grant covers the reply |
| AuthorityBindings.SignaturesNeeded | custom_components/varco/authority.py:322-408 | corollary of the three handlers: an access request binds exactly if signed, valid and not too soon, an authentication exactly if signed over a channel binding under a usable grant; a claim is answered the same with or without a signature |
| AuthorityBindings.PushedSinceRestriction | custom_components/varco/authority.py:234-252 | after a grant's restrictions are changed, a session of its consumer is pushed a state only under a subscription that a later, justified snapshot listed with that entity |
| AuthoritySessions.OutboxesBounded | custom_components/varco/authority.py:292-317 | in every run each session's outbox holds at most 100 events and one delta per subscription |
| AuthoritySessions.OutboxIsRun | custom_components/varco/authority.py:216-252 | a session's outbox goes through exactly the queue operations that the steps of the run ask for: events queued for it, notices of its consumer's revocation, deletion or changed restrictions, and flushes |
| AuthoritySessions.SessionDeltaIsFold | custom_components/varco/authority.py:302-306 | a delta that waits for a session is the fold of all deltas queued for its subscription since it was created |
| AuthorityRates.AnsweredWithinLimit | custom_components/varco/authority.py:410-421 | with a clock that does not go back, what is answered to a consumer in the minute before any instant weighs at most 240 |
| AuthorityRates.RefusedExactly | custom_components/varco/authority.py:410-421 | a message under a good grant is refused for its rate exactly if everything answered in the last minute plus its own weight (five for a camera image or history, two for a call, one otherwise) exceeds 240 |
| AuthorityRates.LimitersHold | custom_components/varco/authority.py:551-571 | for a limiter with steady parameters and a list of its own: its operations are a cooldown apart, and no window holds more than its limit |
| AuthorityRates.CooldownsHold | custom_components/varco/authority.py:551-571 | over every run of the authority, operations let through under an id are a cooldown apart, whatever limiters share the list, if for each some limiter with the id denies for so long before any of them prunes to less |
| AuthorityRates.WindowsHold | custom_components/varco/authority.py:551-571 | over every run of the authority, no window holds more of them than the limit, if for each some limiter with the id counts to it and none prunes to less than the window |
| AuthorityRates.DataIsLogged | custom_components/varco/authority.py:534-571 | everything answered with data is on the log of each limiter in force for it |
| AuthorityRates.EnforcementIsAllOrNothing | custom_components/varco/authority.py:534-571 | whatever the ids, a denial of any kind adds no hit anywhere; passing leaves in each list the hits within the windows of the limiters in force and adds one hit for each of them |
| AuthorityRates.RequestsAreSpaced | custom_components/varco/authority.py:335-343 | although old times are pruned, a consumer's filed access requests are at least five seconds apart |
| AuthorityRates.RequestAnsweredExactly | custom_components/varco/authority.py:322-343 | although old times are pruned, in every run a signed and valid access request is refused exactly if the last filed one of its consumer is less than five seconds ago |
| AuthorityStore.StoreIsRun | custom_components/varco/authority.py:159-232 | the store of every run of the authority is that of a run of store operations that creates the owner's shares in order |
| AuthorityStore.StoreInvariantsHold | custom_components/varco/authority.py:347-388 | in every run of the authority, lookup agrees with search, pending requests stay within their bounds, and shares are conserved with claims in two steps anywhere between other steps |
| SlidingWindow.RefusedExactlyAboveLimit | custom_components/varco/authority.py:410-421 | although hits are pruned, a request is refused exactly if the full history says that admitting it would exceed the limit |
| SlidingWindow.NeverAboveLimit | custom_components/varco/authority.py:410-421 | with a forward clock the weight admitted in any window is within the limit, for every limit and window |
| SlidingWindow.TableIsPrunedHistory | custom_components/varco/authority.py:413-420 | the stored list is what is left of the history after the consumer's last cutoff |
| RestrictionLimits.AllOrNothing | custom_components/varco/authority.py:551-571 | on a list that belongs to one rule of the attempt, a denial only prunes, and an admission prunes and adds exactly one hit, having passed the check on that list |
| RestrictionLimits.DeniedOrRecorded | custom_components/varco/authority.py:551-571 | whatever the ids, a denial adds no hit to any list, and an admission leaves each list pruned by the rules with its id, plus one hit for each of them |
| RestrictionLimits.PassesExactly | custom_components/varco/authority.py:555-568 | the checks pass exactly if each rule passes on its list as the rules before it with the same id left it |
| RestrictionLimits.RecordsPerRule | custom_components/varco/authority.py:569-570 | whatever the ids, recording appends to a list one hit per rule with its id, and leaves other grants' lists alone |
| RestrictionLimits.SharedIdRecordsTwice | custom_components/varco/authority.py:556-570 | two cooldowns under one id: one admission puts two equal hits into their list |
| LimiterRuns.VerdictOnFullRecord | custom_components/varco/authority.py:558-567 | a limiter decides on the pruned list, shared or not, as on the full record of it, if no limiter with its id prunes to less than its window and its cooldown is guarded |
| LimiterRuns.HitsAreSpaced | custom_components/varco/authority.py:559-561 | in every run, admitted operations under an id are a cooldown apart, however many limiters share the list, if in each attempt one that denies for so long comes before any that prunes to less |
| LimiterRuns.WindowsAreBounded | custom_components/varco/authority.py:562-567 | in every run, no window holds more admitted operations under an id than the limit, with n hits for each only as many as first reach it, if one limiter with the id counts to the limit and none prunes to less than the window |
| LimiterRuns.ListIsRecord | custom_components/varco/authority.py:562-570 | as far back as a window that no limiter with the id prunes to less than, the pruned list is the full record |
| LimiterRuns.CooldownKeptExactly | custom_components/varco/authority.py:555-570 | limiters under one id keep a cooldown in every run exactly if, in their order, one that denies for so long, by cooldown or by a limit that their own hits reach, comes before any that prunes to less, or a negative limit denies everything |
| LimiterRuns.RecordKeptExactly | custom_components/varco/authority.py:555-570 | their list is the full record of a window in every run exactly if none prunes to less, or one that denies for so long comes before any that does, or a negative limit denies everything |
| LimiterRuns.SharedListForgets | custom_components/varco/authority.py:555-570 | a count over ten seconds before a cooldown of sixty, and before a count of one in sixty, under the default id: operations at 0 and at 20 seconds are both admitted |
| LimiterRuns.AloneIsGuarded | custom_components/varco/authority.py:555-570 | a limiter with an id of its own meets these conditions for its own cooldown, window and limit |
| Outbox.BoundedInEveryRun | custom_components/varco/authority.py:292-309 | at most 100 events and at most one delta per subscription wait |
| Outbox.WaitingDeltaIsFold | custom_components/varco/authority.py:302-306 | a waiting delta is the fold, the latest state per entity winning, of all deltas queued for its subscription since it was created |
| Outbox.ReplayGivesSameView | custom_components/varco/authority.py:292-317 | if no delta of a subscription was dropped, replay gives the view of the uncoalesced stream |
| Outbox.OthersComeThrough | custom_components/varco/authority.py:292-317 | with nothing dropped, events other than deltas come through unchanged and in order |
| Outbox.QueueExactly | custom_components/varco/authority.py:292-309 | an event is merged into the waiting delta of its subscription where that stands, or comes last, the oldest going if a hundred wait |
| PolicyMeaning.ScopesAreListed | custom_components/varco/policy.py:58-75 | each scope is the list under its canonical key; what may be read may be subscribed to |
| PolicyMeaning.EntityAllowedExactly | custom_components/varco/policy.py:78-82 | an entity is allowed exactly if it is listed, or `*` is, or `d.*` where the entity begins with d and its first dot |
| PolicyMeaning.ActionAllowedExactly | custom_components/varco/policy.py:85-99 | a call on an entity is allowed exactly if a listed action is `d.s@e`, `d.*@e` or `*@e`, or is `d.*` where the domain d of the call is what stands before the first dot of the entity; a call on no entity exactly if `d.*` is listed |
| PolicyMeaning.ActiveExactly | custom_components/varco/policy.py:126-148 | when a restriction is in force: enabled, with no selector or one that matches |
| PolicyMeaning.SelectorMatchesExactly | custom_components/varco/policy.py:151-171 | what a selector matches, by its characters after trimming and lower-casing |
| PolicyMeaning.StatelessAllowsExactly | custom_components/varco/policy.py:174-215 | what each type of restriction lets pass by its parameters and the time; an unknown type lets nothing pass |
| LimiterMeaning.LimitersAre | custom_components/varco/policy.py:218-227 | the limiters of an operation are the restrictions of type `rate_limit` or `cooldown` in force, in order, with their parameters, each under its id |
| LimiterMeaning.PassesByTerms | custom_components/varco/authority.py:555-568 | the limiters pass exactly if for each the last hit under its id, among those within the windows of the limiters before it with that id, is a cooldown ago and fewer than its limit are within its window |
| LimiterMeaning.RecordedByTerms | custom_components/varco/authority.py:551-571 | after they pass, a list holds the hits within the windows of all limiters with its id, and one new hit for each of them |
| Policy.FirstDenial | custom_components/varco/policy.py:102-123 | there is no denial exactly if every active restriction allows, and a denial is an active restriction that does not |
| Policy.ActiveLimiters | custom_components/varco/policy.py:218-227 | exactly the enabled, matching restrictions of a limiter type |
| Policy.ActiveTemplates | custom_components/varco/policy.py:230-239 | exactly the enabled, matching templates |
| Trimming.TrimIsIntersection | custom_components/varco/policy.py:43-55 | each scope of the trimmed manifest is the requested values, in either spelling, that are approved in either spelling |
| Trimming.NeverWidens | custom_components/varco/policy.py:35-84 | for a canonical request, an entity that the trimmed manifest allows, wildcards and the fallback of subscriptions on reads included, was requested and approved |
| Trimming.ActionsNeverWiden | custom_components/varco/policy.py:85-99 | the same for service calls |
| Trimming.ApprovingAllChangesNothing | custom_components/varco/policy.py:35-75 | approving the request itself changes no permission |
| Trimming.Idempotent | custom_components/varco/policy.py:35-55 | trimming twice is trimming once, list for list |
| Trimming.TrimIsCanonical | custom_components/varco/policy.py:52-54 | no camelCase key survives |
| Trimming.GainsExactly | custom_components/varco/policy.py:43-54 | of `trim_manifest` alone, for manifests in any spelling: a scope gains nothing exactly if every approved value of its camelCase list is in its canonical list too |
| Trimming.CamelCaseRequestGains | custom_components/varco/policy.py:43-54 | of `trim_manifest` alone: a manifest in camelCase allows nothing itself but something once trimmed |
| StoreRuns.SortIsStable | custom_components/varco/storage.py:63-63 | the sort by age is a permutation, oldest first, insertion order among equals |
| StoreRuns.DecidedAreKept | custom_components/varco/storage.py:58-66 | eviction never removes a decided request |
| StoreRuns.OldestAreEvicted | custom_components/varco/storage.py:62-65 | an evicted request is older than every pending one that stays |
| StoreRuns.PendingAfterEviction | custom_components/varco/storage.py:61-65 | exactly as many stay pending as the cap allows |
| StoreRuns.LookupIsSearch | custom_components/varco/storage.py:96-105 | with an up-to-date index, lookup is a search over the grants and leaves the index alone |
| StoreRuns.LookupFindsAllIffDistinct | custom_components/varco/storage.py:38-43 | lookup finds each grant by its id exactly if no two grants share an id |
| StoreEffects.UpsertExactly | custom_components/varco/storage.py:58-66 | storing a request drops as many pending ones as there are above fifty, none younger than one that stays, and changes no other |
| StoreEffects.FileExactly | custom_components/varco/authority.py:347-355 | a filed request is pending, has its consumer's data and the time, and replaces the consumer's pending request under its id, if there is one |
| StoreEffects.TrimIs | custom_components/varco/policy.py:35-55 | the trimmed manifest has under each canonical key, each once and in the order of the request, the values listed in the request and in the approval in either spelling; no other spelling, and everything else as requested |
| StoreEffects.ApproveExactly | custom_components/varco/storage.py:110-122 | an approval stores for the request's consumer an unrevoked grant under the request's id, with the given expiry, no restrictions, and the values both requested and approved, or with no approval given the request's manifest; the request is decided, other grants stay, and a missing request changes nothing |
| StoreEffects.GrantedWasRequested | custom_components/varco/storage.py:116-118 | every entity or call that such a grant allows, wildcards included, the request allows and the approval covers |
| StoreEffects.RejectExactly | custom_components/varco/storage.py:228-234 | a rejection decides the request and changes nothing else |
| StoreEffects.PreapproveExactly | custom_components/varco/storage.py:124-127 | a preapproved grant has its consumer's name as id and the given manifest, expiry and restrictions |
| StoreEffects.FoundExactly | custom_components/varco/storage.py:96-105 | lookup finds a stored grant with the id, and fails only if there is none |
| StoreEffects.ByIdExactly | custom_components/varco/storage.py:236-253 | revoking, restricting and deleting by id change the grant that lookup finds, and nothing else |
| StoreEffects.TouchExactly | custom_components/varco/authority.py:404-405 | noting a use changes the time on the consumer's grant only |
| StoreEffects.PurgeExactly | custom_components/varco/storage.py:158-226 | purging drops exactly the grants, or shares, that have expired |
| StoreEffects.PurgeReports | custom_components/varco/storage.py:206-226 | and reports exactly the ids of the grants it drops |
| StoreEffects.SharesExactly | custom_components/varco/storage.py:129-156 | a new share counts no claim and allows at least one; revoking and deleting change only the share |
| StoreEffects.AuditExactly | custom_components/varco/storage.py:255-259 | the log keeps its last thousand entries |
| StoreInvariants.StepIsConsistent | custom_components/varco/storage.py:52-56 | every operation keeps entries under their own ids, the index rebuilt and the log bounded |
| StoreInvariants.LookupInEveryRun | custom_components/varco/storage.py:96-105 | in every run lookup by id is a search |
| StoreInvariants.PendingBoundedInEveryRun | custom_components/varco/authority.py:347-355 | in every run at most fifty requests are pending, and at most one per consumer |
| StoreInvariants.MintEffect | custom_components/varco/storage.py:186-203 | a claim that goes through gives the consumer a grant with manifest, expiry and restrictions of the share, raises the share's count by exactly one and changes no other grant or share |
| GrantIds.ClaimUnderTakenName | custom_components/varco/authority.py:364-388 | a run in which a claim under the name of another consumer's grant id goes through: the ids clash, lookup finds the second grant only, and revoking by the id revokes that one and leaves the first |
| GrantIds.DistinctAfterClaimIff | custom_components/varco/storage.py:177-204 | a claim that goes through keeps grant ids distinct exactly if no other consumer's grant has the claimant's name as its id |
| GrantIds.StepStaysDistinctIff | custom_components/varco/storage.py:83-139 | every store operation keeps grant ids distinct exactly if it stores no grant under an id that another consumer's grant has now |
| GrantIds.GrantIdsStayDistinct | custom_components/varco/storage.py:83-204 | grant ids are distinct all through a run exactly if every step of it is free of such a clash |
| GrantIds.FreshIdsNeverClash | custom_components/varco/storage.py:110-127 | if each request id is new when drawn and names no consumer with a grant, and no consumer who gets a grant in its own name has a request's id as name, no ids clash, whatever is approved when |
| ShareSecrets.ClaimAnsweredExactly | custom_components/varco/authority.py:364-388 | the answer to a claim, case by case: unavailable if the share is missing, revoked or past its expiry, a wrong secret if the hashes differ, the grant the consumer has from this share, already claimed if it has another, exhausted, or else a new grant |
| ShareSecrets.ClaimStoresExactly | custom_components/varco/storage.py:179-203 | a claim stores exactly if the share is open, the secret right, a claim left and the consumer without a grant: then the consumer's grant on the share's terms and one claim counted, otherwise nothing |
| ShareSecrets.ClaimNeedsSecret | custom_components/varco/authority.py:371-373 | a claim answered with success had the secret of a share that is open at that time |
| ShareSecrets.LockFollowsCheck | custom_components/varco/authority.py:364-388 | with claims in two steps, every locked part follows a check of the same share and consumer that passed, with the secret that the share still has |
| ShareSecrets.LocksNeedGoodChecks | custom_components/varco/authority.py:364-388 | and a consumer's attempts under the lock are no more than its passed checks |
| ShareSecrets.ClaimedHadSecret | custom_components/varco/authority.py:364-388 | in every run of the authority in which locked parts follow checks, a claim answered with success, in one step or two, came with the secret of its share while that was open |
| ShareSecrets.StoredAsCreated | custom_components/varco/authority.py:173-188 | in every run, a stored share has the terms with which its id was created |
| ShareSecrets.TermsStay | custom_components/varco/storage.py:129-203 | no operation changes the terms or the secret of a stored share |
| ShareSecrets.SecretIsOwners | custom_components/varco/authority.py:173-188 | in every run of the authority, the secret and terms of a stored share are those that the owner gave it |
| ShareClaims.ShareConservation | custom_components/varco/storage.py:141-203 | over every run: holders of a stored share's grant <= claims counted == claims that went through <= claims allowed |
| ShareClaims.ConservedUnderInterleaving | custom_components/varco/authority.py:368-383 | the same however checks and locked parts interleave with revocations, deletions and everything else |
| ShareClaims.NoMintAfterRevocation | custom_components/varco/storage.py:141-156 | after a share is revoked, deleted or purged no claim of it goes through |
| ShareClaims.CheckedClaimSucceeds | custom_components/varco/authority.py:368-388 | without interleaving, a claim that passes the checks goes through, and a second check answers with the same grant |
| ShareClaims.SecondClaimOfConsumer | custom_components/varco/storage.py:184-186 | a second claim of the consumer that was checked before the first took the lock counts again exactly if claims are left, and adds no holder |
| JsonText.PrintsExactly | packages/client/src/encoding.ts:20-27 | the text of each kind of value, item by item and member by member, with its punctuation |
| JsonText.EscapeIs | packages/client/src/encoding.ts:15-18 | the escape of each code unit: the short ones, `\u` with four lower-case hexadecimal digits, or the unit itself |
| JsonText.StringExactly | packages/client/src/encoding.ts:15-18 | a string is the escapes of its units, one after the other, between quotation marks |
| JsonText.NumberExactly | packages/client/src/encoding.ts:22-22 | an integer is its decimal digits without leading zero, after a minus sign if negative |
| JsonText.UnitOrder | packages/client/src/encoding.ts:25-25 | the client's order: the first code units that differ decide, a prefix comes first |
| JsonText.PointOrder | custom_components/varco/crypto.py:24-25 | the authority's order: the same for code points |
| JsonText.KeysAscend | packages/client/src/encoding.ts:25-25 | sorting distinct keys permutes the members and puts them in that order |
| JsonReadBack.StringIsUnits | packages/client/src/encoding.ts:16-18 | printing code points and then escaping everything from U+007F on escapes unit by unit |
| JsonReadBack.ValueReadsBack | packages/client/src/encoding.ts:20-27 | a reader of RFC 8259 reads a printed value off the front of any text that follows it as a value does |
| JsonReadBack.ReadBack | packages/client/src/encoding.ts:20-27 | the reader reads `canonicalJson(v)` back as v with the keys of every object sorted, and consumes all of it |
| JsonCanonical.PrintsAlike | packages/client/src/encoding.ts:20-27 | two values print alike exactly if they are equal up to the order of object keys |
| JsonCanonical.PrintIsAscii | packages/client/src/encoding.ts:15-18 | the output is printable ASCII |
| JsonCanonical.PrintOfNormal | packages/client/src/encoding.ts:20-27 | sorting the keys first changes nothing |
| JsonCanonical.SortAscends | packages/client/src/encoding.ts:25-25 | distinct keys come out strictly ascending |
| JsonCanonical.OrdersAgree | packages/client/src/encoding.ts:25-25 | code unit order and code point order agree on two keys, lone surrogates included, exactly if the keys do not clash |
| JsonCanonical.ClashInUnicode | packages/client/src/encoding.ts:25-25 | without lone surrogates, keys clash exactly if the first units in which they differ are a surrogate and a unit from U+E000 on |
| JsonCanonical.OrdersDisagree | packages/client/src/encoding.ts:24-25 | one pair of keys of each kind that the two orders put differently, one with a lone surrogate |
| JsonCanonical.EndsAgree | custom_components/varco/crypto.py:24-25 | client and authority print any value with distinct keys alike exactly if no object in it has two keys that clash |
| Utf8.RoundTrip | packages/client/src/transport-noble.ts:13-39 | decoding the encoding of any sequence of 16-bit units, lone surrogates included, gives it back |
| Utf8.EncodeCodeInSection3 | packages/client/src/transport-noble.ts:18-21 | the bytes of a code point are those of the table in section 3 of RFC 3629 |
| Utf8.Section3IsEncodeCode | packages/client/src/transport-noble.ts:18-21 | and there are no others |
| Utf8.EncodesUtf8 | packages/client/src/transport-noble.ts:13-24 | the output is in the grammar of RFC 3629 exactly if the string has no lone surrogate |
| Utf8.DecodesUtf8 | packages/client/src/transport-noble.ts:26-39 | everything in the grammar decodes to a well-formed string that encodes back to it |
| Crc32.ShiftOnceLinear | custom_components/varco/frontend/src/panel.ts:1792-1792 | one shift step is linear over xor |
| Crc32.TableEntryLinear | custom_components/varco/frontend/src/panel.ts:1790-1794 | the eight-step shift is linear over xor |
| Crc32.TableStepIsFeed | custom_components/varco/frontend/src/panel.ts:1797-1797 | a table step is eight bit-by-bit steps of the CRC of RFC 1952 |
| CrcNumbers.CrcIsNumber | custom_components/varco/frontend/src/panel.ts:1788-1799 | the checksum in plain arithmetic on numbers, with the polynomial EDB88320 |
| Crc32.OneByteErrorDetected | custom_components/varco/frontend/src/panel.ts:1788-1799 | contents that differ in one byte have different CRCs |
| ZipReader.LocalHeaderReads | custom_components/varco/frontend/src/panel.ts:1764-1772 | every field of a local header, unused ones and the fixed date included |
| ZipReader.CentralHeaderReads | custom_components/varco/frontend/src/panel.ts:1773-1784 | every field of a central header |
| ZipReader.EndRecordReads | custom_components/varco/frontend/src/panel.ts:1749-1755 | every field of the end record, truncated to its width |
| ZipReader.LocalReadsBack | custom_components/varco/frontend/src/panel.ts:1764-1772 | a local header reads back with name, size and CRC |
| ZipReader.EntryReadsBack | custom_components/varco/frontend/src/panel.ts:1773-1784 | a central header leads to its local header, and both agree |
| ZipReader.EntriesReadBack | custom_components/varco/frontend/src/panel.ts:1733-1757 | entries whose sizes fit: a walk from the end record recovers them all, or stops short if there are 65536 or more |
| ZipReader.ReadBack | custom_components/varco/frontend/src/panel.ts:1733-1757 | the same for files, each CRC checked: the forward half of the next |
| ZipReader.ReadsBackExactly | custom_components/varco/frontend/src/panel.ts:1733-1757 | the reader recovers exactly the names and contents of the files, in order, exactly if there are fewer than 65536 and every name, content and part of the archive fits its field |
| ZipReader.EntriesReadBackExactly | custom_components/varco/frontend/src/panel.ts:1733-1757 | the same iff for entries with any CRC |
| ZipReader.TooLongOrTooMany | custom_components/varco/frontend/src/panel.ts:1751-1781 | one file with a name of 65536 bytes does not read back, nor do 65536 empty files |
| Nonces.NoncesAgree | packages/client/src/transport-noble.ts:74-78 | the 12 nonce bytes of client and server agree exactly below 2^32 |
| Nonces.ClientNonceRepeats | packages/client/src/transport-noble.ts:74-78 | two client counters have the same nonce exactly if they are equal modulo 2^32 |
| Nonces.ServerNonceUnique | custom_components/varco/crypto.py:113-115 | two server counters never have the same nonce |
| Nonces.ServerNonceIsNumber | custom_components/varco/crypto.py:113-115 | the server's nonce is the twelve bytes that write the counter, highest first; there is none from 2^96 on |
| Nonces.ClientNonceIsBytes | packages/client/src/transport-noble.ts:74-78 | the client's nonce is eight zero bytes and the last four bytes of the counter |
| Channel.OrderedChannel | packages/client/src/transport-noble.ts:209-226 | whatever the relay drops, repeats, reorders or forges, what each end accepts is, in order and without repeats, a subsequence of what the other sealed |
| Channel.CountersMoveExactly | packages/client/src/transport-noble.ts:219-226 | in every run, the client's counter is the number of envelopes handed to it, the server's the number of those with the nonce it expected |
| Channel.OpensExactly | custom_components/varco/crypto.py:137-143 | in every run, each end opens an envelope, to the payload it gives, exactly if its nonce is the one of that count and its body is that payload sealed by the other end under that nonce |
| Channel.NoncesRepeatExactly | packages/client/src/transport-noble.ts:74-78 | in every run, two envelopes of the client have the same nonce exactly if their numbers agree modulo 2^32, and no two of the server have |
| Channel.ReplayAfterWrap | packages/client/src/transport-noble.ts:219-226 | a run of 2^32 messages, all handed over once and in order, after which the client accepts the first of them once more |
| Channel.ClientOpensExactly | packages/client/src/transport-noble.ts:219-226 | in every run, the client opens the server's envelope i exactly if its counter is i modulo 2^32, and gets what was sealed |
| Channel.ServerOpensExactly | custom_components/varco/crypto.py:137-143 | in every run, the server opens the client's envelope i exactly if its own counter is i modulo 2^32 |
| Channel.FaithfulRelay | custom_components/varco/crypto.py:131-143 | over a relay that passes everything on in order, each end accepts exactly a prefix of what the other sealed |
| BridgeLogic.AtMostTwiceTheLimit | bridge/src/logic.ts:145-152 | with a forward clock, any 60-second span holds at most twice the limit of accepted messages |
| RoomRuns.RoomInvHolds | bridge/src/node.ts:77-187 | in every reachable state the authority is authenticated and not pending, pending peers are unauthenticated and within their cap, without authority there are no consumers, and consumers are keyed by their own session ids, within their cap and announced to the current authority |
| RoomRuns.StepKeeps | bridge/src/node.ts:86-184 | every event keeps that invariant |
| RoomTraffic.DeliversExactly | bridge/src/node.ts:159-163 | what a peer has been forwarded is exactly the payloads addressed to the session id under which it was registered at the time and let through by the gates, unchanged and in order |
| RoomTraffic.RelaysExactly | bridge/src/node.ts:169-171 | the messages of consumers on a socket are exactly the frames that passed both gates while its peer was the authority, each under the session id of its own sender, unchanged and in order |
| RoomTraffic.SentExactly | bridge/src/node.ts:86-184 | in every run, each socket is sent exactly what each event calls for: challenge, ready, offline, announcements, relayed messages, in their order |
| RoomTraffic.MessageExactly | bridge/src/node.ts:130-171 | which messages make an authority, close a peer and with which code, and count against the limits |
| RoomTraffic.StepExactly | bridge/src/node.ts:86-184 | the exact effect of every event on each peer's registration, session, timer and closing; any closing authority connection, even one never let in, evicts the consumers |
| RoomTraffic.BoundWasAllowlisted | bridge/src/node.ts:86-96 | a connection that is listened to as an authority was allowlisted |
| RoomTraffic.AuthorityProved | bridge/src/node.ts:148-158 | the authority of a room connected allowlisted and sent a good signature, and none has done so since |
| Reconnect.DelayInRange | custom_components/varco/relay.py:131-140 | the delay stays between 1 and 60 seconds |
| Reconnect.AtMostSixPerMinute | custom_components/varco/relay.py:107-144 | at most six attempts start in any 60-second span |
| Reconnect.FailuresAreCounted | custom_components/varco/relay.py:122-127 | the counter is the number of connections that ended in a counted terminal close and have no connection with a ready after them |
| Reconnect.LongWaitExactly | custom_components/varco/relay.py:122-131 | the wait after a connection is the long one exactly if it recorded a mismatch, or it and two earlier ones ended in counted closes and none after the first of the three was ready; otherwise it is at most a minute |
| Reconnect.ShortWaitExactly | custom_components/varco/relay.py:131-140 | any other wait is one second doubled once for each connection since the last that lasted a minute or waited long, at most a minute |
| Reconnect.MismatchIsNotCounted | custom_components/varco/relay.py:122-128 | a terminal close that comes with a mismatch waits long but is not counted |
| HarvestProperties.ReadsAreReferences | custom_components/varco/dashboard_export.py:318-323 | an entity is read exactly if some card reachable through nested cards refers to it |
| HarvestMeaning.VisitsExactly | custom_components/varco/dashboard_export.py:118-166 | which cards a harvest visits, with view and path: those of the selected views, of their sections and badges, and the cards nested in them |
| HarvestMeaning.CollectsExactly | custom_components/varco/dashboard_export.py:310-336 | reads are what a visited card names, history what a visited history graph names, cameras what a visited card shows as one |
| HarvestMeaning.RefersExactly | custom_components/varco/dashboard_export.py:315-336 | the references: each entity with view, type and path of each visited card that names or shows it |
| HarvestMeaning.ListsExactly | custom_components/varco/dashboard_export.py:281-287 | the cards listed for a view are its top cards that refer to something, in order, with type and title |
| HarvestMeaning.TreeEntitiesExactly | custom_components/varco/dashboard_export.py:298-365 | the entities listed for a card are those that the cards of its tree name or show |
| HarvestMeaning.ExportsExactly | custom_components/varco/dashboard_export.py:268-277 | an export has in each scope the selected ones of the harvested entities, and the cards with theirs, in order |
| HarvestWarnings.WarnsExactly | custom_components/varco/dashboard_export.py:106-122 | the warnings of a harvest are exactly those about its views and those of each visited card |
| HarvestWarnings.CardWarnsExactly | custom_components/varco/dashboard_export.py:409-417 | which warnings a card gives itself, each with its path |
| HarvestWarnings.ValueWarnsExactly | custom_components/varco/dashboard_export.py:386-406 | which warnings the value of an entity key gives |
| HarvestWarnings.NamedWarnsExactly | custom_components/varco/dashboard_export.py:368-383 | and which the entity keys of a card give, outside nested cards |
| HarvestPositions.NamedByPosition | custom_components/varco/dashboard_export.py:368-383 | a card itself refers to an entity exactly if the entity is in the value of an entity key that is reached through fields and list items without entering a nested card |
| HarvestPositions.RefsStandIn | custom_components/varco/dashboard_export.py:386-406 | the value of an entity key refers to an entity exactly if its text stands in it, at any depth of lists and of the `entity` of mappings |
| HarvestPositions.EntityIdExactly | custom_components/varco/dashboard_export.py:10-10 | what counts as an entity id, character by character |
| HarvestPositions.MemberExactly | custom_components/varco/dashboard_export.py:314-314 | the value under a key is that of its first field |
| HarvestPositions.ChildrenExactly | custom_components/varco/dashboard_export.py:470-475 | the children under a key: the items of a list, nothing for no value, any other value by itself |
| HarvestProperties.AllViewsAreUnion | custom_components/varco/dashboard_export.py:111-120 | harvesting all views visits exactly the cards that harvesting each view visits |
| HarvestProperties.SetsAreUnions | custom_components/varco/dashboard_export.py:168-178 | reads, history and cameras of all views are the unions over the views |
| HarvestProperties.ReferencesAreUnion | custom_components/varco/dashboard_export.py:465-467 | so are the references, each with its context |
| HarvestProperties.WarningsAreUnion | custom_components/varco/dashboard_export.py:106-122 | so are the warnings, but for the one about a config without a list of views |
| HarvestProperties.CardsAreConcatenated | custom_components/varco/dashboard_export.py:119-166 | the listed cards of all views are those of each view, one view after the other |
| HarvestProperties.ScopesFit | custom_components/varco/dashboard_export.py:320-336 | history is among the reads, camera scopes are cameras only, and the entities are reads, history and cameras together |
| HarvestProperties.HarvestedHaveReferences | custom_components/varco/dashboard_export.py:465-467 | exactly the harvested entities have a reference |
| HarvestProperties.DashboardCardsWithin | custom_components/varco/dashboard_export.py:273-277 | cards list selected entities only, none is empty, and none that has a selected entity is lost |
| AuthorityEngine.VarcoAuthority.HandlePlaintext | custom_components/varco/authority.py:122-157 | reply and new state are those of `AuthoritySpec.Handle` |
| AuthorityEngine.VarcoAuthority.AnswerDataPlane | custom_components/varco/authority.py:139-157 | dispatch by the type of the message; an unknown type is an error |
| AuthorityEngine.VarcoAuthority.Audit | custom_components/varco/audit.py:15-21 | appends to the log and changes nothing else |
| AuthorityEngine.VarcoAuthority.GateSession | custom_components/varco/authority.py:423-433 | creates an unknown session, refuses a closed or unbound one, and closes one whose grant is missing, revoked or expired |
| AuthorityEngine.VarcoAuthority.CheckDataPlaneRate | custom_components/varco/authority.py:410-421 | prunes, sums and records as the sliding window of `Limits.dfy` does, and logs a refusal |
| AuthorityEngine.VarcoAuthority.AdmitHit | custom_components/varco/authority.py:410-421 | the table after the in-place pruning and appending is that of `SlidingWindow.Admit` |
| AuthorityEngine.RecentWeights | custom_components/varco/authority.py:414-416 | the hits after the cutoff and the sum of their weights |
| AuthorityEngine.RecentHits | custom_components/varco/authority.py:565-565 | the hits within the window |
| AuthorityEngine.VarcoAuthority.AnswerGetStates | custom_components/varco/authority.py:438-447 | expands, checks scope, enforces, and answers each of exactly the expanded entities with its own state (`RunSafety`, `AnsweredExactly`) |
| AuthorityEngine.VarcoAuthority.AnswerSubscribe | custom_components/varco/authority.py:449-460 | as above with the subscription scope, and stores the subscription it answers with (`SessionsExactly`) |
| AuthorityEngine.VarcoAuthority.AnswerUnsubscribe | custom_components/varco/authority.py:462-465 | removes the named subscription of the session and nothing else |
| AuthorityEngine.VarcoAuthority.AnswerHistoryQuery | custom_components/varco/authority.py:467-477 | refuses more than ten entities or one out of scope, then enforces |
| AuthorityEngine.VarcoAuthority.AnswerCameraSnapshot | custom_components/varco/authority.py:496-504 | refuses a camera out of scope, then enforces |
| AuthorityEngine.VarcoAuthority.AnswerCallService | custom_components/varco/authority.py:506-532 | refuses unresolved targets and unauthorized entities, enforces, and only then passes on the call |
| AuthorityEngine.VarcoAuthority.AnswerWebrtc | custom_components/varco/authority.py:665-688 | answers, acknowledges or falls back as the peer stack allows, and logs |
| AuthorityEngine.VarcoAuthority.EnforceRestrictions | custom_components/varco/authority.py:534-549 | stateless restrictions, then templates, then limiters, each denial logged |
| AuthorityEngine.VarcoAuthority.CheckAndRecordRateLimits | custom_components/varco/authority.py:551-571 | the two loops over the active limiters: verdict and hit lists of `RestrictionLimits.CheckAndRecord` |
| AuthorityEngine.VarcoAuthority.CheckRates | custom_components/varco/authority.py:555-568 | the first loop prunes and stops at the first limiter that denies |
| AuthorityEngine.VarcoAuthority.RecordHits | custom_components/varco/authority.py:569-570 | the second loop appends one hit per limiter |
| AuthorityEngine.CheckTemplates | custom_components/varco/authority.py:573-588 | passes exactly if every template is configured, renders and is truthy |
| AuthorityEngine.ExpandEntityIds | custom_components/varco/authority.py:693-703 | wildcards become the known entities they cover within the scope; no repeats, order kept |
| AuthorityEngine.CoveredEntities | custom_components/varco/authority.py:700-700 | the known entities that the wildcard covers and the scope allows, in order |
| AuthorityEngine.AnyDenied | custom_components/varco/authority.py:440-441 | denied exactly if some entity is out of scope |
| AuthorityEngine.AnyCallDenied | custom_components/varco/authority.py:516-522 | denied exactly if some entity, or the call on no entity, has no scope in the sense of `ActionAllowedExactly` |
| AuthorityEngine.VarcoAuthority.AnswerAccessRequest | custom_components/varco/authority.py:322-362 | the error paths in order, the five-second interval, the reused request id, and the session bound to the consumer |
| AuthorityEngine.VarcoAuthority.AnswerAuthenticate | custom_components/varco/authority.py:391-408 | refuses without channel binding, signature or usable grant; else notes the use and binds the session |
| AuthorityEngine.VarcoAuthority.CheckBeforeLock | custom_components/varco/authority.py:364-381 | the checks of a claim before the lock, the secret among them (`ClaimAnsweredExactly`) |
| AuthorityEngine.VarcoAuthority.ClaimUnderLock | custom_components/varco/authority.py:382-388 | the locked part of a claim and what follows it |
| AuthorityEngine.VarcoAuthority.AnswerClaim | custom_components/varco/authority.py:364-388 | a claim without interleaving: the checks, then the locked part |
| AuthorityEngine.VarcoAuthority.RevokeGrant | custom_components/varco/authority.py:216-223 | revokes, closes the consumer's sessions, queues their error and logs |
| AuthorityEngine.VarcoAuthority.DeleteGrant | custom_components/varco/authority.py:225-232 | deletes, closes the consumer's sessions, queues their error and logs |
| AuthorityEngine.VarcoAuthority.CloseSessions | custom_components/varco/authority.py:218-221 | every session of the consumer is closed and gets the error; the others stay as they are |
| AuthorityEngine.VarcoAuthority.SetGrantRestrictions | custom_components/varco/authority.py:234-252 | stores the restrictions and clears the consumer's subscriptions with an error in each outbox |
| AuthorityEngine.VarcoAuthority.ClearSubscriptions | custom_components/varco/authority.py:241-251 | every session of the consumer loses its subscriptions and gets the error; the others stay as they are |
| AuthorityEngine.VarcoAuthority.OnStateChanged | custom_components/varco/authority.py:280-290 | one delta per subscription with the entity, for each session that is not closed |
| AuthorityEngine.VarcoAuthority.Deltas | custom_components/varco/authority.py:286-289 | the deltas for one session, in the order of its subscriptions |
| AuthorityEngine.VarcoAuthority.QueueEvent | custom_components/varco/authority.py:292-309 | queues into a known session's outbox; an unknown session changes nothing |
| AuthorityEngine.VarcoAuthority.PopOutbox | custom_components/varco/authority.py:311-317 | hands over the outbox and leaves it empty |
| AuthorityEngine.VarcoAuthority.DiscardSession | custom_components/varco/authority.py:319-320 | forgets the session |
| Outbox.QueueEvent | custom_components/varco/authority.py:292-309 | coalesces into the subscription's waiting delta, or appends and drops the oldest at the cap |
| Policy.EvaluateRestrictions | custom_components/varco/policy.py:115-123 | the loop returns the first active restriction that denies |
| Policy.RateLimitRestrictions | custom_components/varco/policy.py:218-227 | the loop lists the active limiters in order |
| Policy.TemplateRestrictions | custom_components/varco/policy.py:230-239 | the loop lists the active templates in order |
| Trimming.TrimManifest | custom_components/varco/policy.py:35-55 | the loops over scopes and spellings compute `Policy.Trim` |
| Trimming.WithoutRepeats | custom_components/varco/policy.py:48-50 | first occurrences, in order |
| Trimming.KeepApproved | custom_components/varco/policy.py:54-54 | the approved values, in order |
| MemoryStore.MemoryVarcoStore.UpsertAccessRequest | custom_components/varco/storage.py:58-66 | puts the request and pops the oldest pending ones above fifty |
| MemoryStore.MemoryVarcoStore.Pending | custom_components/varco/storage.py:61-61 | the ids of the pending requests, in insertion order |
| MemoryStore.MemoryVarcoStore.SortedByAge | custom_components/varco/storage.py:63-63 | the stable sort by creation time |
| MemoryStore.MemoryVarcoStore.GetPendingRequestByConsumer | custom_components/varco/storage.py:68-73 | the first pending request of the consumer |
| MemoryStore.MemoryVarcoStore.RebuildGrantIndex | custom_components/varco/storage.py:38-43 | indexes every grant with an id; the later of two wins |
| MemoryStore.MemoryVarcoStore.UpsertGrant | custom_components/varco/storage.py:83-90 | keyed by consumer, index up to date |
| MemoryStore.MemoryVarcoStore.GetGrant | custom_components/varco/storage.py:96-105 | lookup through the index; a stale entry is dropped |
| MemoryStore.MemoryVarcoStore.ApproveRequest | custom_components/varco/storage.py:110-122 | decides the request and stores the grant with the trimmed manifest (`ApproveExactly`); a missing request changes nothing |
| MemoryStore.MemoryVarcoStore.RejectRequest | custom_components/varco/storage.py:228-234 | decides the request |
| MemoryStore.MemoryVarcoStore.CreatePreapprovedGrant | custom_components/varco/storage.py:124-127 | a grant named after its consumer |
| MemoryStore.MemoryVarcoStore.RevokeGrant | custom_components/varco/storage.py:236-243 | finds by id and marks revoked |
| MemoryStore.MemoryVarcoStore.DeleteGrant | custom_components/varco/storage.py:245-253 | finds by id and removes |
| MemoryStore.MemoryVarcoStore.PurgeExpiredGrants | custom_components/varco/storage.py:206-226 | removes exactly the expired grants and returns their ids |
| MemoryStore.MemoryVarcoStore.UpsertShare | custom_components/varco/storage.py:129-132 | puts the share |
| MemoryStore.MemoryVarcoStore.RevokeShare | custom_components/varco/storage.py:141-147 | marks the share revoked |
| MemoryStore.MemoryVarcoStore.DeleteShare | custom_components/varco/storage.py:149-156 | removes the share |
| MemoryStore.MemoryVarcoStore.PurgeExpiredShares | custom_components/varco/storage.py:158-177 | removes exactly the expired shares and returns their ids |
| MemoryStore.MemoryVarcoStore.ClaimShare | custom_components/varco/storage.py:179-203 | the locked part of a claim: refuses a missing, revoked or exhausted share, else counts the claim and stores the grant |
| MemoryStore.MemoryVarcoStore.AppendAudit | custom_components/varco/storage.py:255-259 | keeps the last thousand events |
| Utf8.Utf8Encode | packages/client/src/transport-noble.ts:13-24 | the loop computes `Utf8.Encode` |
| Utf8.PushCode | packages/client/src/transport-noble.ts:18-21 | pushes the bytes that the table in section 3 of RFC 3629 gives for the code point |
| Utf8.Utf8Decode | packages/client/src/transport-noble.ts:26-39 | the loop computes `Utf8.Decode`, the range error of `fromCodePoint` included |
| PanelZip.TableRow | custom_components/varco/frontend/src/panel.ts:1791-1793 | a row of the table is the eight-step shift of its index |
| PanelZip.Panel.BuildTable | custom_components/varco/frontend/src/panel.ts:1789-1795 | the cached table holds all 256 rows |
| PanelZip.Panel.Crc32 | custom_components/varco/frontend/src/panel.ts:1788-1799 | the table-driven loop computes the bit-by-bit CRC-32 of every byte sequence |
| PanelZip.Panel.ZipHeader | custom_components/varco/frontend/src/panel.ts:1759-1786 | the buffer written field by field is the local or central header, fields truncated to 16 and 32 bits |
| PanelZip.Panel.FillLocal | custom_components/varco/frontend/src/panel.ts:1764-1772 | the fields of a local header, each at its place |
| PanelZip.Panel.FillCentral | custom_components/varco/frontend/src/panel.ts:1773-1784 | the fields of a central header, each at its place |
| PanelZip.SetUint16 | custom_components/varco/frontend/src/panel.ts:1765-1768 | writes one 16-bit field, low byte first, truncated |
| PanelZip.SetUint32 | custom_components/varco/frontend/src/panel.ts:1762-1762 | writes one 32-bit field, low byte first, truncated |
| PanelZip.Panel.WriteEnd | custom_components/varco/frontend/src/panel.ts:1749-1755 | the end record |
| PanelZip.Panel.CreateZip | custom_components/varco/frontend/src/panel.ts:1733-1757 | the growing part lists and offset make up the archive of the files |
| Channel.SecureServerSession.Encrypt | custom_components/varco/crypto.py:131-135 | one more nonce used, and the payload sealed under it |
| Channel.SecureServerSession.Decrypt | custom_components/varco/crypto.py:137-143 | a wrong nonce changes nothing; a right one is used up even if the tag then fails |
| Channel.NobleRelayTransport.Encrypt | packages/client/src/transport-noble.ts:209-217 | one more nonce used, and the payload sealed under it |
| Channel.NobleRelayTransport.Decrypt | packages/client/src/transport-noble.ts:219-226 | the counter advances before the comparison |
| Channel.NobleRelayTransport.Request | packages/client/src/transport-noble.ts:122-135 | the message goes out sealed and its id waits for an answer |
| Channel.NobleRelayTransport.HandleMessage | packages/client/src/transport-noble.ts:228-242 | an answer settles its request once, anything else is an event, and a failure ends the transport |
| BridgeRoom.Room.AcceptAuthority | bridge/src/node.ts:86-96 | allowlist, cap on pending authorities, challenge and deadline |
| BridgeRoom.Room.AcceptConsumer | bridge/src/node.ts:98-110 | offline and cap refusals; else registered and announced |
| BridgeRoom.Room.Message | bridge/src/node.ts:130-143 | size and rate gates, parsing, signaling gate, dispatch by role |
| BridgeRoom.Room.HandleConsumer | bridge/src/node.ts:169-171 | forwards to the authority under the peer's own session id (`RelaysExactly`) |
| BridgeRoom.Room.HandleAuthority | bridge/src/node.ts:145-167 | the action on an authority's message |
| BridgeRoom.Room.BecomeAuthority | bridge/src/node.ts:148-158 | replaces the old authority and evicts the consumers |
| BridgeRoom.Room.Forward | bridge/src/node.ts:159-163 | sends the payload to the peer registered under the session id, if the gate lets it |
| BridgeRoom.Room.EvictConsumers | bridge/src/node.ts:154-155 | closes every consumer and forgets them |
| BridgeRoom.Room.Closed | bridge/src/node.ts:173-184 | forgets the peer and evicts or notifies |
| BridgeRoom.Room.CloseAll | bridge/src/node.ts:112-122 | terminates every peer and empties the room |
| BridgeRoom.Room.TerminatePending | bridge/src/node.ts:114-117 | stops the timer of every pending peer and terminates it |
| BridgeRoom.Room.TerminateConsumers | bridge/src/node.ts:118-118 | terminates every consumer |
| Reconnect.VarcoRelay.Run | custom_components/varco/relay.py:107-144 | the times at which the loop starts its attempts |
| Reconnect.VarcoRelay.Connect | custom_components/varco/relay.py:146-179 | what one connection does to the failure count and the terminal reason |
| Harvesting.Harvester.RefsFromValue | custom_components/varco/dashboard_export.py:386-406 | the entities of a value, and its warnings |
| Harvesting.Harvester.RefsFromList | custom_components/varco/dashboard_export.py:396-399 | the entities of every item |
| Harvesting.Harvester.RefsFromNamedKeys | custom_components/varco/dashboard_export.py:368-383 | the entities under the entity keys of a mapping, not inside nested cards |
| Harvesting.Harvester.RefsFromField | custom_components/varco/dashboard_export.py:372-382 | nested cards are skipped, entity keys read, mappings and lists of mappings searched |
| Harvesting.Harvester.AddReference | custom_components/varco/dashboard_export.py:465-467 | adds a context once |
| Harvesting.Harvester.AddReads | custom_components/varco/dashboard_export.py:320-323 | each entity is read, subscribed and referred to |
| Harvesting.Harvester.AddCameras | custom_components/varco/dashboard_export.py:332-336 | of the references exactly the camera entities are added |
| Harvesting.Harvester.WarnDynamicCard | custom_components/varco/dashboard_export.py:409-417 | the warnings of a dynamic card |
| Harvesting.Harvester.WalkOwn | custom_components/varco/dashboard_export.py:310-336 | what a card itself adds to every set |
| Harvesting.Harvester.WalkCard | custom_components/varco/dashboard_export.py:298-365 | the recursive walk adds to every shared set exactly what the tree of the card refers to, and returns its entities |
| Harvesting.Harvester.WalkChildren | custom_components/varco/dashboard_export.py:338-364 | the nested cards under one key |
| Harvesting.Harvester.WalkItems | custom_components/varco/dashboard_export.py:125-137 | walks the cards of a view or section and lists those that refer to something |
| Harvesting.Harvester.AppendDashboardCard | custom_components/varco/dashboard_export.py:281-287 | lists a card that is a mapping and refers to something |
| Harvesting.Harvester.WalkSections | custom_components/varco/dashboard_export.py:138-153 | the cards of all sections that are mappings |
| Harvesting.Harvester.WalkView | custom_components/varco/dashboard_export.py:124-166 | a view's cards, sections and badges, in this order |
| Harvesting.Harvester.WalkViews | custom_components/varco/dashboard_export.py:120-166 | the selected views in order; a view that is no mapping is warned about |
| Harvesting.HarvestLovelaceConfig | custom_components/varco/dashboard_export.py:97-183 | each set of the harvest is that of the pure tree, references list no context twice, warnings and cards are exactly those of the selected views |
| HarvestProperties.ExportDashboard | custom_components/varco/dashboard_export.py:43-60 | no exported scope or card lists an entity outside the selection, the selection lists harvested entities only, and every exported entity has a reference |

## Left out

- Cryptography: signatures, key agreement, AES-GCM, SHA-256 and PBKDF2 are ideal; a secret or PIN stands for its hash, and new ids are inputs.
- Home Assistant itself: entities, states, recorder answers, rendered templates and resolved targets are inputs of a step.
- Steps of the authority: one message is handled without interruption and with one reading of each clock; only share claims are taken apart.
- Sessions: `RuntimeSession` objects are values in the authority's dictionary, so that sharing of one object is not modelled.
- `webrtc.py`, `websocket_api.py`, `services.py`, `config_flow.py` and `packages/server`: input and output only.
- `bridge/src/index.ts`: the Durable Object twin of the room.
- Peers of a room: they are ids with a table of their state, not objects, and their timers are flags; the messages that `AtMostTwiceTheLimit` counts are those of one socket.
- `packages/client/src/transport.ts` and `client.ts`: their order depends on promises.
- Numbers in canonical JSON are integers, printed with all their digits; JavaScript does so below 10^21 only, and is exact up to 2^53. `undefined`, functions and `NaN` do not occur.
- Base64: envelopes carry byte sequences.
- Manifests: lists of strings under the five scope keys; names, versions and the schema checks of `manifest.py` are left out, and stored manifests are canonical already.
- Error replies: the code of an error is modelled, its text is not; nor are the details of log entries and the reason of a denial.
- History: only the entities of an answer, not its points, time range or truncation.
- Dates: expiry dates that do not parse count as absent; times of day and weekdays come parsed.
- `_normalize_restriction`: restrictions come with their PINs hashed.
- `notify_owner`, listeners of the store, identity and the persistent copy of the store.
- Strings are compared and lower-cased as ASCII where the source uses Unicode rules.
- Bits: CRC words are sequences of bits, and the shifts and masks of the UTF-8 codec are divisions and remainders.
- ZIP text: names and contents are byte sequences; `TextEncoder` is not part of this model.
- Harvest lists: the sorted lists of a harvest are sets, warnings are compared as sets, and the text of a `type` that is a list or a mapping is not modelled.
- The catalog and the brief of an export.
- PanelZip.Panel.ZipHeader: takes the lengths of name and data, which is all that the source uses of them.
- MemoryStore.MemoryVarcoStore.CreatePreapprovedGrant: names and notes of grants are left out, and no caller passes a share id.
- Outbox.ReplayGivesSameView: speaks of events that the queue delivers, not of those the relay sends directly when a channel is open.
- RoomRuns.RoomInvHolds: the caps are real numbers as in the source, so that a cap of two and a half pending peers admits three.
- AuthorityRates.LimitersHold: is for a list that no other active limiter shares; `CooldownsHold` and `WindowsHold` are for shared lists, under the conditions that `CooldownKeptExactly` and `RecordKeptExactly` show to be exact.
- LimiterRuns.WindowsAreBounded: goes one way; a bound on operations may hold although the list forgets, since each admission records one hit per limiter. What is exact is `RecordKeptExactly`, about the list itself.
- LimiterRuns.CooldownKeptExactly: and `RecordKeptExactly` speak of attempts whose limiters all have the one id; limiters with other ids can only deny more.
