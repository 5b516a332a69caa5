# FlipChat backend, modelled and proved in Dafny

FlipChat's services are short protocols over shared stores: Postgres rows, Redis keys, an object
store, and a hub in memory. Each reads, checks, and writes conditionally, and any number of them
interleave. This project models those protocols statement by statement and proves what they keep.

`dafny verify dfyconfig.toml` checks everything.

## How it is built

Objects that the source changes in place are classes here (repositories, services, stores, hub,
clients), with the source's branches in the source's order. Each method is proved against a
function of the stores. What is hard is then proved about those functions, over all runs.

- **Messages and attachments.** `Chat` has one function for each access to a store that a request
  makes, and `ChatMachine` interleaves any number of requests with time, blocks and new
  conversations. The invariants of its reachable states are in `ChatRows` (row shape, stale
  snapshots), `ChatOwnership` (who holds an attachment id), `ChatEffects` (who won a once-only
  change), `ChatObjects` (objects and their removal) and `ChatReplies` (threads); `ChatBlocks` says
  which requests get through a block that comes while they are under way. `ChatCalls`
  proves that an uninterrupted request does what the whole call does, which is what the methods of
  `MessageService` and `AttachmentService` are proved to do; `ChatAlone` that the machine does it,
  amid any other requests; `ChatOutcomes` states, without the order of its checks, when it succeeds,
  and column by column what it then writes, answers and publishes. `ChatDownload` is the round trip
  from Upload to Download through any run.
- **Paging.** `Paging` is the cursor protocol over a table that changes between requests;
  `ChatWalk` and `FriendService` apply it to messages and friends.
- **Refresh tokens.** `Tokens` has the pipelines over the token map and the per-user index.
  `AuthCalls` takes the calls of the auth service apart, one clock reading or one round trip at a
  time, and interleaves any number of them; `TokenService` has the objects, whose methods are
  proved to be those steps; `SessionOutcomes` says what each call on its own leaves of every key
  and every set, `SessionRuns` what holds of all runs, and `SessionExamples` has runs
  that go wrong, each reached from the empty store. Agreement of map and index is
  stated up to a slack, because EXPIRE takes whole seconds and because overlapping calls may store
  their expiries in another order than they read the clock.
- **Hub and presence.** `Channel` is one bounded queue, `Hub` the objects, `HubMachine` all
  lifecycles interleaved with the events that a run of `ChatMachine` publishes, `HubPresence` what
  clients are told and why, `Presence` the keys with a time to live and the ticks that refresh them.
- **Friends and blocks.** `FriendTable` has the upsert, the log of statements and the union of the
  half-tables; `FriendService`, `BlockService` and `ConversationService` the objects; `Social` runs
  whole calls of all services over one world.

Identifiers are integers, so that they have a total order; times are integers too. Clock readings,
generated ids, whether a quiet write succeeds, the set of users and the set of blocks at the moment
of a check are parameters.

## Where the code and its documents differ

The model follows the code.

- `docs/paths/messages.yaml:198` says that deleting a message clears its metadata. The code keeps
  it (`backend/internal/message/repository.go:95-99`), and so does `ChatMachine.RunEvolves`.
- `docs/adr/adr-001-attachment-upload-metadata.md:40` says that objects never attached are cleaned
  up when the upload record expires. No code removes them; an object is removed only after the
  deletion of its message (`ChatObjects.OneRemovalEach`). For the same reason a send by the wrong
  user consumes the record and leaves the object (`ChatOutcomes.SendOutcome`).
- `docs/adr/adr-002-refresh-token-reuse-detection.md` says that the old token no longer exists
  after a rotation. Tokens carry no unique id, so a refresh within the second of the issue returns
  the token it was given, still live (`SessionExamples.SameSecondRefresh`); `SessionRuns.ExchangeInRun` has
  the exact condition. Nor is every reuse rejected: two refreshes that look the token up before
  either exchanges it both succeed (`SessionExamples.TwoRefreshesSucceed`).
- `docs/websocket.md:170` asks the client for a heartbeat every 30 seconds. The server itself
  refreshes the key on each ping tick, and `Presence.NeverLapses` needs no heartbeat.

## Model

| member | source | states |
|---|---|---|
| `ChatObjects.NoDanglingObject` | backend/internal/message/service.go:300-314 | In every interleaving of uploads, sends, edits, deletions, reads and record expiry, a message that is not deleted and has metadata names an object that is in the store with the very bytes that were uploaded |
| `ChatObjects.OneRemovalEach` | backend/internal/message/service.go:304-314 | The delete call is made at most once for any object key, and only for the key of a message already marked deleted |
| `ChatOwnership.AttachmentUsedOnce` | backend/internal/message/service.go:172-218 | In every reachable state an attachment id is carried by at most one message |
| `ChatOwnership.AttachmentIsUploaders` | backend/internal/attachment/service.go:49-98 | A message with metadata was sent by the uploader and says exactly what the upload recorded; the size is within 12 bytes and 5 MiB and the type is that of the uploaded bytes |
| `ChatOwnership.UniqueIndexNeverRefuses` | backend/db/migrations/000010_make_attachment_id_index_unique_partial.up.sql:5-7 | Popping the record is enough: the unique index on attachment ids never has to refuse an insert |
| `ChatEffects.OneDeleteSucceeds` | backend/internal/message/service.go:278-325 | Of any number of concurrent deletions of a message at most one succeeds |
| `ChatEffects.OneFanoutEach` | backend/internal/message/service.go:327-371 | At most one message.new, one message.deleted and one message.read event is made for a message, and only after the change it announces |
| `ChatRows.RowsAlways` | backend/internal/message/repository.go:71-134 | Under stale snapshots and any interleaving: deleted_at and deleted_by go together and name the sender with the content null, is_edited goes with updated_at, a live row has non-blank content or metadata, a deleted row never changes again, read_at is written once, no event is addressed to its own origin |
| `ChatRows.NobodyHearsThemselves` | backend/internal/message/service.go:394-406 | No event of a reachable state is addressed to its own origin |
| `ChatReplies.RepliesFormForest` | backend/internal/message/service.go:153-164 | Following reply links from any message of any reachable state ends, never repeats a message and stays in the conversation |
| `ChatDownload.DownloadRoundTrip` | backend/internal/attachment/service.go:122-185 | For a file uploaded in any reachable state, any later state, and a message that carries it, the one answer Download can give: to a participant the same bytes, name, type and size while the message is not deleted; to anyone else, and to everyone after deletion, not found |
| `ChatDownload.DownloadInterleaved` | backend/internal/attachment/service.go:122-166 | Row lookup, participant check and fetch as separate statements with any requests in between: an answer that is no error has the bytes, name, type and size of the upload; when there is one (if and only if); and the object is there unless the message has been deleted by then |
| `ChatBlocks.OnlyAdmittedGetThrough` | backend/internal/message/service.go:138-164 | Statement by statement: while a block stands only requests already past their block check can add a message to the conversation or mark one as read, one row each at most, and nobody else gets past |
| `ChatBlocks.NoNewEventPasses` | backend/internal/ws/hub.go:94-106 | While a block stands, in any interleaving, no new event between the two passes the hub's check |
| `ChatWalk.ClientSeesEverything` | backend/internal/message/service.go:97-130 | With any requests between page fetches, the ids a client sees descend strictly, none comes twice, and at the end it has seen every message that was there at its first fetch |
| `ChatWalk.ClientEnds` | backend/internal/message/service.go:97-130 | Wherever the ids of new messages fall, the walk ends within the fetches that all messages there are in the end would need |
| `ChatWalk.ClientFinishes` | backend/internal/message/service.go:97-130 | If no id below the current cursor is inserted the walk makes exactly max(1, ceil(n/limit)) fetches and sees exactly the n messages of the first, newest first, whatever comes in above the cursor |
| `ChatWalk.OrderLeavesNothingBehind` | backend/internal/message/repository.go:52-61 | Ids inserted in increasing order meet that condition |
| `Paging.WalkTerminates` | backend/internal/message/service.go:97-130 | If nothing changes behind the cursor of the moment, the walk makes exactly the requests the first table needs and collects exactly that table |
| `Paging.WalkBounded` | backend/internal/message/service.go:97-130 | Whatever is inserted, the walk ends within the requests that all ids there ever are would need |
| `Paging.WalkOrdered` | backend/internal/message/repository.go:52-69 | Whatever happens to the table between requests, the ids come in strict order past the first cursor |
| `Paging.WalkSound` | backend/internal/message/service.go:97-130 | Every id seen was in the table at one of the requests |
| `Paging.WalkComplete` | backend/internal/message/service.go:97-130 | A walk that ends has seen every id that was there at each of its requests |
| `Paging.PagesNeededIsCeiling` | backend/internal/message/service.go:102-118 | That number is the quotient rounded up, at least one |
| `Paging.PageSplitsListing` | backend/internal/message/service.go:102-118 | A page and what its cursor leaves are together what remained; there is a cursor exactly when the page could not hold it all |
| `Paging.DescendingIsNewest` | backend/internal/message/repository.go:52-69 | A descending page is the newest ids below the cursor: what is left out is older than all of them, and there is a next cursor, the last id, if and only if something is |
| `Paging.AscendingIsSmallest` | backend/internal/friend/repository.go:52-82 | An ascending page likewise, with the smallest ids above the cursor |
| `SessionRuns.IndexAgreesIff` | backend/internal/auth/repository.go:88-185 | In any interleaving of the auth calls, each clock reading and round trip a step of its own, token map and index agree throughout, up to a given slack, if and only if each put finds no session that outlives the set's new time to live and each revocation finds none it has not read |
| `SessionRuns.DisciplineAgrees` | backend/internal/auth/service.go:186-193 | If no put comes while a revocation of its user is under way, and none lowers the expiry of its user's set, map and index always agree up to the second that EXPIRE cuts off; if instead each put follows its clock reading within a delay, up to that delay and the second |
| `Tokens.IndexedWithoutSlack` | backend/internal/auth/repository.go:88-101 | Agreement without slack: every live token is in its owner's live set, and the set outlives it |
| `Tokens.OwnGap` | backend/internal/auth/repository.go:95-97 | How long before its newest token the set dies, because EXPIRE takes whole seconds: the rest of the time to live by a second |
| `Tokens.PutKeepsIndexed` | backend/internal/auth/repository.go:94-99 | Putting a token keeps the agreement if and only if the set's new time to live covers it and every other session of the user |
| `Tokens.RevokeKeepsIndexed` | backend/internal/auth/repository.go:150-157 | Deleting the tokens read and the set keeps the agreement if and only if every other session of the user is about to end |
| `SessionExamples.OverlapHidesSession` | backend/internal/auth/service.go:186-193 | A run, reached step by step, of two overlapping logins after which a revocation finds no set and leaves a live session: a constant lifetime and a monotone clock do not suffice |
| `SessionRuns.DisciplinedLogoutAll` | backend/internal/auth/repository.go:141-158 | Within such a run a revocation leaves its user only sessions that are about to end |
| `SessionRuns.LogoutAllRevokes` | backend/internal/auth/repository.go:141-158 | After any disciplined run, and whatever happens between the read of the set and the deletion: no session is left if and only if all that are live then had been read; what is left was put since or was about to end |
| `SessionRuns.LogoutAllMisses` | backend/internal/auth/repository.go:141-158 | The same from any state in which map and index agree up to a slack |
| `SessionRuns.RevocationLeaves` | backend/internal/auth/repository.go:150-157 | The deletion leaves exactly the sessions not read, and every other user's |
| `SessionRuns.KilledNeverRefreshes` | backend/internal/auth/repository.go:160-167 | In any interleaving, once a token is dead and unless it is put again, no refresh of it gets past the rotation's lookup, wherever it was; only one that had passed can still succeed |
| `SessionRuns.KillingKills` | backend/internal/auth/repository.go:124-185 | The steps that kill a token: dropping it, deleting it with its user's, exchanging it for another |
| `SessionRuns.ExchangeInRun` | backend/internal/auth/repository.go:160-185 | At the exchange of any refresh: the old token dies if and only if the new one differs, the owner stays, and every user's number of sessions stays if and only if the old token is live and the new one is no other live session, or neither |
| `SessionRuns.LateExchangeAddsSession` | backend/internal/auth/repository.go:160-185 | A refresh that was past its lookup when its token was killed adds a session |
| `SessionExamples.TwoRefreshesSucceed` | backend/internal/auth/repository.go:160-185 | A run, reached step by step, in which two refreshes of one token both answer success and one session becomes two |
| `SessionExamples.LoginSurvivesLogoutAll` | backend/internal/auth/repository.go:141-158 | A run, reached step by step, in which a login puts its token between a revocation's read and its deletion, survives it, and is not found by the next |
| `SessionRuns.RefreshSucceedsIff` | backend/internal/auth/service.go:135-170 | When an uninterrupted refresh succeeds (if and only if), and the exchange it then makes |
| `SessionRuns.RefreshFailsWith` | backend/internal/auth/service.go:135-170 | A refresh that fails changes nothing and answers which check failed |
| `SessionOutcomes.LoginOutcome` | backend/internal/auth/service.go:186-193 | For every store and all delays: when a login succeeds (if and only if), that the token it answers has the caller's id, name and address and its times in whole seconds, and, key by key and set by set, that it is saved for what was left of the lifetime and nothing else changes |
| `SessionOutcomes.RefreshOutcome` | backend/internal/auth/service.go:135-170 | For every store, token and all delays: when a refresh succeeds (if and only if, in the store's own times), that the token it answers has the old one's claims, and that the old one goes, the new one is saved and nothing else changes |
| `SessionOutcomes.LogoutOutcome` | backend/internal/auth/service.go:127-129 | For every store, token and both delays: a token live when looked up is dead afterwards and in no set of its owner, every other key, member and set stays; any other token leaves the store as it was |
| `SessionOutcomes.LogoutAllOutcome` | backend/internal/auth/service.go:131-133 | Every token of the user's set that has not run out is deleted, and the set, and nothing else; without such a set the store stays as it was |
| `SessionOutcomes.LoggedOutStaysOut` | backend/internal/auth/service.go:127-142 | After a logout a refresh of that token is refused, however much later, and changes nothing |
| `SessionExamples.SameSecondRefresh` | backend/pkg/jwt/jwt.go:76-85 | A concrete refresh in the second of the login that gives the same, still live, token back |
| `AuthCalls.SameSecondSameToken` | backend/pkg/jwt/jwt.go:76-85 | Two tokens issued to the same claims are equal if and only if both their times, each from its own clock reading, fall within the same seconds |
| `AuthCalls.TurnsAreAlone` | backend/internal/auth/service.go:127-193 | In the machine, amid any other requests, a request that nothing interrupts does what it does on its own |
| `HubMachine.RegistryBalanced` | backend/internal/ws/hub.go:36-62 | In every interleaving a client between Register and Unregister is its user's entry if and only if it is not closed; per user, registrations = replacements + successful unregistrations + the entry present |
| `HubMachine.LeavesAlternate` | backend/internal/ws/hub.go:52-62 | Between two successful unregistrations of a user there is a registration of it |
| `HubMachine.OfflineOnce` | backend/internal/ws/client.go:60-87 | That a client has announced its user gone and cleared its presence is recorded at most once each, and never for one that was replaced |
| `HubPresence.PresenceHasCause` | backend/internal/ws/client.go:60-87 | In every interleaving: whoever is told, or about to be told, that a user has gone, a connection of that user was successfully unregistered before; whoever is told that it is there, one was registered |
| `HubPresence.AnnouncementsAreTrue` | backend/internal/ws/client.go:67-77 | When a client's announcement reaches a partner (if and only if), and that it says gone exactly when that client was successfully unregistered, before this is recorded as said, and never if a newer connection replaced it |
| `HubMachine.QueuesFaithful` | backend/internal/ws/client.go:91-97 | In any interleaving of connections with any run of the message service: of each client, delivered events followed by queued ones are an in-order subsequence of those sent, at most 256 wait, nothing is missing if nothing was dropped, and none has its own user as origin |
| `HubMachine.OnlyAloftArrives` | backend/internal/ws/hub.go:67-88 | When events from one user to another are looked up no more, exactly those looked up before still reach a client, each once |
| `HubPresence.MessagesWerePublished` | backend/internal/ws/hub.go:94-109 | Every message event that reaches a client was published for its user by a run of the message service, with that kind and origin, and passed the block check |
| `HubPresence.PublishedIsLookedUp` | backend/internal/ws/hub.go:67-88 | An event published for a connected user that no block stops is looked up for that user's connection |
| `HubPresence.FlightIsSent` | backend/internal/ws/client.go:91-97 | What was looked up is sent to that connection, whatever comes in between |
| `HubPresence.WaitingIsDelivered` | backend/internal/ws/client.go:91-97 | All that waits in a queue is delivered, in order, after as many deliveries, whatever is sent meanwhile: a full queue drops the new event and never an old one |
| `HubPresence.ClientRegisters` | backend/internal/ws/client.go:60-68 | From any state, a client's start: it takes its user's entry and closes the client that had it |
| `HubPresence.ClientLeaves` | backend/internal/ws/client.go:70-87 | The end of a client that is its user's entry: the entry goes, it has said so once and cleared the presence, and it is closed |
| `HubPresence.ClientSuperseded` | backend/internal/ws/client.go:70-87 | The end of a client that a newer one has closed: entry, log and presence stay as they are |
| `Channel.NothingLost` | backend/internal/ws/client.go:91-97 | Delivered and queued are all that was sent if and only if nothing was dropped |
| `Channel.SendAccepts` | backend/internal/ws/client.go:91-97 | A send is taken in at the end if fewer than 256 wait and is lost otherwise; nothing taken in is given up |
| `Presence.OnlineIff` | backend/internal/presence/presence.go:24-30 | A user is online if and only if some SetOnline less than a TTL ago has not been undone since |
| `Presence.NeverLapses` | backend/internal/ws/client.go:134-166 | With set-up time and one ping period within the TTL a running connection's key never lapses unless a SetOffline comes after it opened |
| `Presence.NeverLapsesIff` | backend/internal/ws/client.go:13-18 | For a connection on its own that condition is exact |
| `Presence.DefaultsAllowFiveSeconds` | backend/internal/config/config.go:59-62 | With the shipped 30 s period and 35 s TTL the set-up may take five seconds and no more |
| `Presence.LateOfflineHeals` | backend/internal/ws/client.go:73-82 | After a late SetOffline of an older connection the key is back a period after that SetOffline or after the start of the pump, whichever is later, and stays |
| `Presence.GoneAfterTtl` | backend/internal/presence/presence.go:24-26 | Once a TTL has passed since the last SetOnline the key is gone |
| `FriendTable.MutualConsent` | backend/internal/friend/repository.go:113-155 | After any log of upserts and deletes a pair are friends if and only if each of the two has asked since the row was last deleted |
| `FriendTable.TableReflectsLog` | backend/internal/friend/repository.go:113-155 | The table holds exactly who asked: a row if someone did, the first as requester, accepted if and only if a second user did too |
| `FriendTable.RowLife` | backend/internal/friend/repository.go:113-145 | Until a row is deleted its requester and creation time stay, and an accepted row does not change |
| `FriendTable.ViewOfLog` | backend/internal/friend/service.go:101-122 | What one user sees of another is exactly which of the two have asked since the last deletion |
| `FriendTable.LateAccept` | backend/internal/friend/service.go:243-263 | An accept whose upsert comes after other statements: when it succeeds, and when the two are friends then; otherwise it has made a request of its own |
| `FriendTable.AcceptWithoutFriendship` | backend/internal/friend/service.go:243-263 | A concrete accept that answers success and leaves only a request of its own |
| `FriendTable.LateDeletion` | backend/internal/friend/service.go:210-226 | A cancel or decline whose deletion comes after any other statements: when it ends a friendship (if and only if) |
| `FriendTable.CancelEndsFriendship` | backend/internal/friend/service.go:210-226 | A concrete cancel, or decline, that found a pending request and ends a friendship |
| `FriendTable.UnionAllExact` | backend/internal/friend/repository.go:52-82 | In any scan order the union of the two half-tables lists each user once, and exactly those the single-user lookup classifies so |
| `FriendTable.ViewsSymmetric` | backend/internal/friend/service.go:101-122 | Two users see their row from opposite sides: accepted on both, sent on one and received on the other |
| `FriendTable.ListsDisjoint` | backend/internal/friend/repository.go:19-82 | No user is in both the friend list and the request list |
| `FriendTable.AcceptNamesCaller` | backend/internal/friend/repository.go:133-136 | The row an upsert returns names the caller itself exactly when it accepted |
| `FriendService.FriendWalkExact` | backend/internal/friend/service.go:78-122 | Following the cursors over a fixed table yields exactly the users for whom FindOne says accepted, in order and once, in max(1, ceil(n/limit)) requests |
| `FriendService.FriendWalkWhileChanging` | backend/internal/friend/service.go:78-99 | While rows come and go between the pages: strict order, each user seen was a friend at some request, everyone who was a friend at all of them is seen, and the walk ends within the requests that everyone would need |
| `FriendService.CallsFollowViews` | backend/internal/friend/service.go:124-306 | When each of the five calls goes ahead, what it does to what the two users see of each other, and that it changes nothing for anyone else |
| `FriendService.CallsWriteRow` | backend/internal/friend/service.go:124-306 | The very row each of the five calls leaves: a request of the caller made now, an acceptance that keeps who asked and when, or none |
| `FriendService.RefusalsSaid` | backend/internal/friend/service.go:124-306 | For each answer, exactly when the five calls are refused with it |
| `Social.BlockedAreStrangers` | backend/internal/block/repository.go:28-55 | After any whole calls of all services two users of whom one blocked the other have no friends row, though accepting makes no block check |
| `Social.ExclusionIff` | backend/internal/friend/service.go:137-147 | Statement by statement, in any interleaving: no friends row ever stands beside a block if and only if each upsert that the constraints allow is executed while no block of its pair stands |
| `Social.BlockInBetween` | backend/internal/friend/service.go:137-147 | A concrete run in which a block between check and upsert leaves a row beside a block |
| `Social.BlockSilences` | backend/internal/message/service.go:138-144 | While a block stands, whatever anybody calls, the pair get no new conversation, theirs get no message, none of theirs becomes read, and no event of either, of messages or of presence, reaches the other |
| `Social.BlockAndUnblock` | backend/internal/block/service.go:28-62 | In any world a block and its undoing end a friendship and change nothing else |
| `BlockService.BlockOutcome` | backend/internal/block/repository.go:28-55 | A block succeeds if and only if the two differ, both are known and the caller has not blocked the other yet; it then stands from the caller to the other, their friends row is gone, and all else stays |
| `BlockService.BlockRoundTrip` | backend/internal/block/repository.go:28-66 | A new block and the caller's own unblock leave the blocks as they were, also when the other has blocked the caller |
| `ChatOutcomes.SendOutcome` | backend/internal/message/service.go:132-232 | When an uninterrupted send succeeds (if and only if); column by column the one row it adds, the answer and the one event; what it answers when it fails; and that a failed send adds nothing and consumes the record it named only if all else was in order |
| `ChatOutcomes.ActOutcome` | backend/internal/message/service.go:234-371 | When an uninterrupted edit, deletion or read succeeds (if and only if); column by column what becomes of the row, and the answer and event that show it; a second read shows the row as it is; a failure changes nothing and says why |
| `ChatOutcomes.UploadOutcome` | backend/internal/attachment/service.go:49-120 | An upload succeeds if and only if the size is within the limits, the stream gives that many bytes, and its own bytes have a known type; then it stores those bytes and the record; otherwise it stores nothing and says why |
| `ChatCalls.SoloSend` | backend/internal/message/service.go:132-232 | The machine's steps of a send, uninterrupted, add up to the whole call |
| `ChatCalls.SoloAct` | backend/internal/message/service.go:234-371 | The same for editing, deleting and reading |
| `ChatCalls.SoloUpload` | backend/internal/attachment/service.go:49-120 | The same for uploading |
| `ChatAlone.SendAlone` | backend/internal/message/service.go:132-232 | In the machine, amid any other requests, a send that nothing interrupts is the whole call |
| `ChatAlone.ActAlone` | backend/internal/message/service.go:234-371 | The same for editing, deleting and reading |
| `ChatAlone.UploadAlone` | backend/internal/attachment/service.go:49-120 | The same for uploading |
| `Metadata.DescribeRoundTrip` | backend/internal/attachment/service.go:157-185 | Marshalling and reading back the metadata gives the id and the record; the size if it is at most 2^53 |
| `Metadata.Float64Exact` | backend/internal/attachment/service.go:176-185 | An integer survives the float64 decode if and only if it is a multiple of the spacing at its magnitude |
| `Metadata.SmallNumbersExact` | backend/internal/attachment/service.go:176-185 | Every integer up to 2^53 survives the float64 decode |
| `Metadata.NextNumberRounds` | backend/internal/attachment/service.go:176-185 | 2^53 + 1 does not |
| `Metadata.RoundsToNearest` | backend/internal/attachment/service.go:176-185 | A natural number comes back as the nearest multiple of the spacing, of two as near the even one |
| `Metadata.SpacingFits` | backend/internal/attachment/service.go:176-185 | The spacing is the power of two from which 53 bits reach to the number |
| `Mime.DetectsFormat` | backend/internal/attachment/mime.go:16-47 | The verdict is a type if and only if that type's own rule matches |
| `Mime.DetectOrderIrrelevant` | backend/internal/attachment/mime.go:16-47 | The verdict does not depend on the order of the tests |
| `Mime.DetectUsesHeader` | backend/internal/attachment/mime.go:9-58 | The verdict depends on the first twelve bytes only |
| `Text.BlankIffAllSpace` | backend/internal/message/service.go:146-151 | Trimming leaves nothing if and only if every character is white space |
| `MessageService.MessageService.ListMessages` | backend/internal/message/service.go:97-130 | Not found for everyone but participants; to them the newest ids of the conversation below the cursor, newest first, the cursor the last id exactly when older ones are left, each entry showing its row in all columns |
| `MessageService.MessageService.SendMessage` | backend/internal/message/service.go:132-232 | The machine's send; when it succeeds; the row, answer and event column by column; the error when it fails |
| `MessageService.MessageService.EditMessage` | backend/internal/message/service.go:234-276 | The machine's edit; when it succeeds; that row, answer and event have the new text, the mark and the time, and all else as before; the error when it fails |
| `MessageService.MessageService.DeleteMessage` | backend/internal/message/service.go:278-325 | The machine's deletion; when it succeeds; that the row loses its text and says when and by whom, all else as before; the object removed; the error when it fails |
| `MessageService.MessageService.MarkAsRead` | backend/internal/message/service.go:327-371 | The machine's read; when it succeeds; that row, answer and event have the time of the first read, all else as before; the error when it fails |
| `MessageService.ClampLimit` | backend/internal/message/service.go:422-430 | The limit used is within 1 and 100, and is the one asked for if that is |
| `Chat.ToResponse` | backend/internal/message/service.go:434-453 | A response shows every column of its row but the text of a deleted one |
| `MessageTable.MessageRepository.Create` | backend/internal/message/repository.go:21-29 | Inserts if and only if the id is new, the message replied to is there, and no row carries the same attachment |
| `MessageTable.MessageRepository.ListByConversation` | backend/internal/message/repository.go:52-69 | The ids below the cursor, newest first, up to the limit, with their rows |
| `MessageTable.MessageRepository.EditMessage` | backend/internal/message/repository.go:71-92 | Succeeds if and only if the row is there and not deleted; it then has the new text, the mark and the time, and all other columns as before; otherwise not found and nothing changes |
| `MessageTable.MessageRepository.Delete` | backend/internal/message/repository.go:94-115 | Succeeds if and only if the row is there and not deleted; it then has no text, and says when and by whom; otherwise not found and nothing changes |
| `MessageTable.MessageRepository.MarkAsRead` | backend/internal/message/repository.go:117-134 | Succeeds if and only if the row is there and neither read nor deleted; it then has the time; otherwise not found and nothing changes |
| `MessageTable.MessageRepository.FindByAttachmentID` | backend/internal/message/repository.go:136-165 | Some row that carries the id, not found if and only if there is none |
| `AttachmentService.AttachmentService.Upload` | backend/internal/attachment/service.go:49-120 | The machine's upload, reading the header once and putting it back in front; the answer has the file's name, its type by its own bytes and its size; object and record are stored under the new id; the error when it fails |
| `AttachmentService.AttachmentService.Download` | backend/internal/attachment/service.go:122-166 | Answers what a row that carries the attachment allows, or not found |
| `Stores.UploadStore.PopUploadRecord` | backend/internal/attachment/upload_store.go:58-83 | Answers the record if it is not expired, and the key is gone whatever it answers |
| `Stores.ObjectStore.PutObject` | backend/internal/attachment/service.go:81-88 | Stores the declared number of bytes of header and rest together, or refuses a stream that is too short |
| `Mime.ReadHeader` | backend/internal/attachment/mime.go:49-58 | In however many reads, the first twelve bytes or all there are, and the reader stands right behind them |
| `TokenService.TokenRepository.SaveRefreshToken` | backend/internal/auth/repository.go:88-101 | The time to live computed at one instant, the pipeline at a later: the key for that long, the set for its whole seconds; refused if already over |
| `TokenService.TokenRepository.FindTokenByToken` | backend/internal/auth/repository.go:103-122 | The owner of a token live at the lookup, and the end of its remaining time, asked for later, in whole seconds |
| `TokenService.TokenRepository.DeleteTokenByToken` | backend/internal/auth/repository.go:124-139 | The owner read at one instant, the token and its membership removed at a later one |
| `TokenService.TokenRepository.DeleteTokenByUserID` | backend/internal/auth/repository.go:141-158 | Removes every member the set had when read, in a loop, and the set |
| `TokenService.TokenRepository.RotateRefreshToken` | backend/internal/auth/repository.go:160-185 | The owner looked up, the time to live computed, the exchange made, each at its instant, or the refusal |
| `TokenService.AuthService.SaveSession` | backend/internal/auth/service.go:186-193 | The steps of a login, or of the end of a registration, with any delays: when it succeeds, whose token it answers, what it saves |
| `TokenService.AuthService.Refresh` | backend/internal/auth/service.go:135-170 | The steps of a refresh with any delays: whose token it answers, that the old one goes and the new one is saved; a failure changes nothing |
| `TokenService.AuthService.Logout` | backend/internal/auth/service.go:127-129 | A token live when looked up is dead afterwards and in no set of its owner, all else as it was; any other token changes nothing |
| `TokenService.AuthService.LogoutAll` | backend/internal/auth/service.go:131-133 | Deletes what the user's set holds when read, and the set, and nothing else |
| `Hub.Hub.Register` | backend/internal/ws/hub.go:36-46 | The client becomes its user's entry and the one before it is closed |
| `Hub.Hub.Unregister` | backend/internal/ws/hub.go:52-62 | Removes the client if and only if it is still the entry, and tells so |
| `Hub.Hub.FanOutToConversation` | backend/internal/ws/hub.go:94-109 | Offers it to the recipient unless there is a block either way |
| `Hub.Hub.FanOutPresence` | backend/internal/ws/client.go:203-216 | Each connected partner that is not blocked is offered the event once, and nobody else |
| `Hub.Client.Send` | backend/internal/ws/client.go:91-97 | Appends if fewer than 256 wait, and otherwise leaves the queue as it is |
| `Presence.Store.AreOnline` | backend/internal/presence/presence.go:32-53 | A map with exactly the users asked about, each to whether its key is live |
| `FriendService.FriendRepository.UpsertFriend` | backend/internal/friend/repository.go:113-145 | Succeeds if and only if both users are known and there is no row or the other user's request; a new row is the caller's request of this time, an accepted one keeps requester and creation time; the record names the user of the pair who did not request |
| `FriendService.FriendRepository.List` | backend/internal/friend/repository.go:52-82 | The union of the half-tables, those that match, past the cursor is the ordered query over the user's matching partners |
| `FriendService.FriendService.AddFriend` | backend/internal/friend/service.go:124-174 | Its refusals in order; otherwise the upsert, whom its record names, and that the caller then sees a sent request, or a friend if the other had asked |
| `FriendService.FriendService.AcceptFriendRequest` | backend/internal/friend/service.go:236-276 | Its refusals in order; otherwise both are friends, and the record names the caller |
| `FriendService.FriendService.CancelFriendRequest` | backend/internal/friend/service.go:203-234 | Its refusals in order; otherwise the row is gone |
| `FriendService.FriendService.DeclineFriendRequest` | backend/internal/friend/service.go:278-306 | Its refusals in order; otherwise the row is gone |
| `FriendService.FriendService.Unfriend` | backend/internal/friend/service.go:176-201 | Its refusals in order; otherwise the row is gone |
| `FriendService.FriendService.FindOne` | backend/internal/friend/service.go:101-122 | The caller's view of the other user |
| `FriendService.FriendService.FindAll` | backend/internal/friend/service.go:78-99 | A page of the ordered query over the caller's friends that match, each with its row's creation time |
| `FriendService.FriendService.FindAllRequests` | backend/internal/friend/service.go:40-76 | A page of the caller's pending partners, each with its row's creation time and marked sent or received as the single-user lookup would say |
| `FriendService.LimitOf` | backend/internal/friend/service.go:79-81 | The limit used is the one asked for, or 20 if that is not positive |
| `BlockService.BlockRepository.BlockUserAtomic` | backend/internal/block/repository.go:28-55 | Deletes the friendship and inserts the block, or, if the insert is refused, does neither |
| `BlockService.BlockService.BlockUser` | backend/internal/block/service.go:28-46 | Refuses oneself; otherwise, if both are known and the caller's own block is not there, records and answers it with the caller as blocker and ends the friendship; an error changes nothing |
| `BlockService.BlockService.UnblockUser` | backend/internal/block/service.go:48-63 | Refuses oneself; otherwise removes the caller's own block, leaving the other's |
| `ConversationService.ConversationService.CreateConversation` | backend/internal/conversation/service.go:41-75 | The one conversation of the pair: the one there is, even across a block, or else a new row under the new id, but not across a block; nothing else changes |
| `Stores.ConversationRepository.GetConversationsPartner` | backend/internal/conversation/repository.go:150-167 | Every partner once, never the user itself |

## Left out

- Instants are whole milliseconds, and the client's and the store's clock are one; finer differences between a time to live and the milliseconds SET keeps of it are not modelled.
- TokenService.AuthService.Refresh: access tokens, signatures and the checks of claims other than expiry are not modelled.
- TokenService.AuthService.SaveSession: what comes before it in Register and Login (users, passwords, hashing) is not modelled.
- Hub.Client.Close: checks whether the channel is closed and closes it; one step here, so two closes at the same instant are not modelled.
- Hub.Hub.SendToUser: looks the client up and sends in one call; HubMachine separates the two, with any other steps in between.
- HubPresence.AnnouncementsAreTrue: a client may announce itself to a partner any number of times in the machine; that each is told once is Hub.Hub.FanOutPresence.
- HubPresence.PresenceHasCause: says what happened before an event, not that events of one user are sent in the order in which they were looked up; connections send on their own.
- Social.BlockSilences: takes whole calls as steps; ChatBlocks.OnlyAdmittedGetThrough and ChatBlocks.NoNewEventPasses say what single statements keep.
- Social.BlockedAreStrangers: takes whole calls as steps; Social.ExclusionIff says exactly when separate statements keep the exclusion.
- FriendService.FriendRepository.UpsertFriend: the name and user name that come with the joined user are not modelled.
- FriendService.FriendService.FindAll: which users a search text matches is a parameter; the names of the listed users are not modelled.
- FriendService.FriendService.FindAllRequests: the names of the listed users are not modelled.
- AttachmentService.AttachmentService.Upload: the object store fails only when the stream breaks or is too short; the size of the stored object beyond the declared one is not modelled.
- MessageService.MessageService.SendMessage: the optional attachment and object stores are always present, as the server wires them.
- Presence.NeverLapses: assumes that every SetOnline succeeds and that ticks are exactly a period apart.
- Message rows of deleted accounts, and all other account deletion cascades.
- HTTP handlers, routing, cookies, logging, configuration and migrations; of the migrations only the table constraints appear.
- JWT signing, Argon2, UUID generation and the text of JSON: tokens and ids are opaque, a JSON document is a map.
- Socket reads and writes, ping and pong frames, the upgrade, and the last-seen time.
- Driver and network errors of Postgres and Redis, Redis eviction and restarts.
- Profile updates, password validation, user search, and the conversation list.
- The block list: it asks for the limit and not for one more, so it never gives a cursor and its paging is not complete.
