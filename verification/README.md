# HomeHub: Drop, the Telegram bridge and IAM, modelled and verified

This project models the parts of HomeHub whose correctness spans several functions, files or services, and proves
what they promise over every input, every run and every interleaving of the kinds below.

* **Drop** keeps shared items in SQL tables and their attachments in a directory of blobs. `DropState` says what each
  store operation does, as functions from states to states; the class in `DropStore` performs the same operations step by
  step, with the loops, moves and undo lists of the code, and every method is proved to do exactly what its function says.
  `DropRuns` proves what every reachable state satisfies: tables and blobs agree byte for byte, totals are exact, the
  quota holds, the schema's constraints hold, whatever fails on the way. `DropHistory` relates later states to earlier
  ones (retries, keys, expiry, cleanup). `DropPaging` and `DropListing` are about listing, `DropExpiry` says how long an
  item lives, `DropCleanup` is about the expiry worker. `DropCrash` splits Create and Delete into single renames, removals
  and commits, interleaves any number of them and lets the process crash after any step; `DropOrphan` says exactly after
  which runs tables and directory disagree, and `DropUndisturbed` that a request which nothing interleaves with does, step
  by step, what `DropState` says it does at once. `DropUpload` is the multipart request in front of the store, and
  `DropUploadRuns` places whole requests within runs of the store and says what the items they create hold.
* **The Telegram bridge** polls for updates and forwards messages to Drop. `BridgeMessage` says what it makes of one message
  and what Drop's upload loop answers to the resulting request; `BridgeLoop` is the polling loop with its offset and
  backoff, proved to produce runs of a small automaton; `BridgeContent` says what can arrive at Drop of a message and what
  the item made of it holds; `BridgeDelivery` puts the automaton, the Telegram server and Drop together, with lost polls,
  lost answers, failing calls, restarts and other clients of Drop; `BridgeCrash` lets Drop crash in it as well;
  `BridgeFailures` is about the messages that stop the bridge and the files that it delivers incomplete.
* **IAM** authenticates the owner and issues access tokens. `IamSetup` interleaves setup calls at their database
  statements; `IamSession`, `IamLogin` and `IamTotp` are the session table, the login limiter and the one-time codes;
  `AccessToken` is issuing and verifying, `TokenCache` the bridge's cached token.

`Prelude` and `Text` hold shared vocabulary: sums over maps, decimal printing and reading, cutting and trimming, UTF-8.

Times are integers on one clock that never goes back: nanoseconds in `AccessToken` and `TokenCache`, seconds in the other
IAM modules, in Drop the microseconds that PostgreSQL keeps. Random identifiers are parameters, required to be new. Which
call fails is a parameter too, the creation and writing of Drop's temporary files included, so every contract covers
every failure of the calls it models. A commit either happens or does not; the compensating
removals and renames, whose errors the code ignores, are taken to succeed. SHA-256 of an idempotency key is represented by
its preimage; JSON, base64url and Ed25519 enter `AccessToken` as parameters with stated laws.

## What the code does not do

Some properties that one would expect do not hold of the code. Each is stated exactly, with the cases in which it fails.

* Tables and directory of Drop need not agree. From a fresh disk, by any interleaving of requests, failures and crashes,
  they agree whenever nothing is in flight if and only if no crash ever hit a file in flight and no Delete ever committed
  without holding all files of its item (`DropOrphan.AgreesExactlyWhen`); otherwise they disagree for ever
  (`DropOrphan.TornDisagrees`), since nothing recovers such a file. The second case needs no crash: a Delete whose commit
  fails gives up its lock before it restores, and a second Delete of the item may commit in between
  (`DropCrash.MissingMeansRace`, with a whole run in `DropOrphan.OrphanWithoutCrash`). The bytes of committed attachments
  are never lost (`DropOrphan.FreshDiskLosesNothing`).
* A private message whose text is white space only, in the sense of Unicode, with a caption and no file, passes the bridge's
  check and is sent to Drop without text and file (`BridgeMessage.EmptyExactlyWhen`; a no-break space is enough:
  `BridgeFailures.BlankTextIsRefusable`); a message whose three identifiers print to fewer than five characters has a key
  that Drop refuses (`BridgeMessage.KeyLengthAccepted`, `BridgeFailures.ShortKeyIsRefusable`). Drop refuses the requests for
  these however they arrive, and those for all other messages exactly when they are cut off or Drop cannot create or write
  a temporary file for the message's file (`BridgeFailures.RefusableIsRefused`). The bridge never gets past one
  (`BridgeFailures.StuckForEver`).
* A file may be kept incomplete for good. When reading it from Telegram fails half-way, the bridge still closes the body
  regularly, Drop stores the item under the message's key, and every retry is answered with that item. The first request
  that Drop turns into an item decides: the message is kept whole if and only if the bridge had read its file to the end
  for that request (`BridgeFailures.KeptAsItArrived`). For every such message and every position there is a run that loses
  the rest of the file and never sends it again (`BridgeFailures.IncompleteForGood`).
* The login limiter counts before it records. Attempts that come one after another leave at most five recorded denials in
  any 15 minutes (`IamLogin.WindowsAreLimited`), but attempts that overlap can each pass the check first: then the bound is
  four and the largest number of attempts under way together (`IamLogin.WindowsHoldAtMost`). It is reached for every such
  number (`IamLogin.BoundIsReached`), so the limit of five holds of all runs if and only if attempts do not overlap
  (`IamLogin.FiveExactlyWhen`).
* Failed logins from an unknown address are not recorded, so the limiter does not see them
  (`IamLogin.UnknownAddressIsNotLimited`).
* The signer accepts the audience `homehub`, which no verifier can be configured with
  (`AccessToken.BareAudienceIsNeverVerified`).
* The wait after an update that failed is always one second: the poll that delivered it has reset the backoff
  (`BridgeLoop.WaitsBackOff`).
* `CleanupExpired` counts an item that another request has deleted meanwhile as deleted; the model's pass counts the same way.

## Model

| member | source | states |
|---|---|---|
| DropState.AscendingSorts | services/drop/internal/store/store.go:256-285 | ordering rows by (created_at, id) lists exactly the rows, strictly increasing |
| DropState.MovableStops | services/drop/internal/store/store.go:163-175 | the rename loop does every rename before the first one that fails, whose source is missing, or whose source an earlier attachment took, and stops there |
| DropState.MovableAll | services/drop/internal/store/store.go:163-175 | all renames succeed only if every source exists and no two attachments share one |
| DropState.PlacedAt | services/drop/internal/store/store.go:163-175 | each moved blob has the bytes of its own upload, under its own name |
| DropState.NewRowAt | services/drop/internal/store/store.go:163-190 | each inserted row carries the fields of its own attachment and the name of its own blob |
| DropRuns.AdmitMeaning | services/drop/internal/store/store.go:112-121 | admission succeeds exactly when every attachment is well formed and every partial sum fits, and yields the request's total |
| DropRuns.UsedShrinks | services/drop/internal/store/store.go:142-148 | as items expire, the used bytes only fall |
| DropRuns.CreateFailure | services/drop/internal/store/store.go:158-201 | a Create that commits nothing leaves tables and blobs as they were |
| DropRuns.CreateSucceeds | services/drop/internal/store/store.go:107-202 | without a failing call, Create under a new key succeeds exactly when creator, actor, TTL, key and every attachment are well formed, there is a text or an attachment, its size and that of the unexpired items together are within the quota, and each upload is there for one attachment only |
| DropRuns.CreateCommits | services/drop/internal/store/store.go:107-202 | what a committed Create requires of its input and of the quota, and the tables and files that it leaves |
| DropRuns.CreateMakes | services/drop/internal/store/store.go:150-201 | field by field: the new item has the text, creator and actor of the request and its total size, was created now, expires its TTL from now, and is the answer; each attachment has the fields of its own upload, in order |
| DropRuns.ActiveSizesAre | services/drop/internal/store/store.go:142-145 | the sum that Create and Stats form is over the sizes of the items whose expiry is later than now |
| DropRuns.CreateKeepsInv | services/drop/internal/store/store.go:107-202 | Create keeps the invariant of tables, blobs, totals and quota, whichever call fails |
| DropRuns.DeleteKeepsInv | services/drop/internal/store/store.go:306-359 | Delete keeps the invariant, whichever call fails |
| DropRuns.ExpiryKeepsInv | services/drop/internal/store/store.go:361-373 | UpdateExpiry keeps the invariant, the quota included |
| DropRuns.StepKeepsInv | services/drop/internal/store/store.go:107-410 | every operation keeps the invariant |
| DropRuns.RunKeepsInv | services/drop/internal/store/store.go:107-410 | in every reachable state blobs and attachment rows correspond one to one with matching bytes, totals are exact, the active total is within the quota, and keys lead one to one to existing items |
| DropHistory.RunEvolves | services/drop/internal/store/store.go:361-410 | over any run items keep their content and key, expiry is irreversible, identifiers are not reused, committed bytes do not change |
| DropHistory.KeyAfterCreate | services/drop/internal/store/store.go:191-196 | a committed Create makes its key lead to its new item |
| DropHistory.KeyFollowsItem | services/drop/internal/store/migrations/0001_core.sql:29-33 | over any run a key leads to its item for exactly as long as the item's row exists, and no longer |
| DropHistory.OpKeys | services/drop/internal/store/store.go:131-196 | a key is new only after a Create that carries it, and no operation turns a key to another item |
| DropHistory.ReplayChangesNothing | services/drop/internal/store/store.go:131-141 | whatever else a request with a taken key holds and whatever fails, it changes neither tables nor files, and if it is answered with an item, that is the unexpired one its key leads to, with exactly its attachments |
| DropHistory.RetryReturnsSameItem | services/drop/internal/store/store.go:131-141 | retrying a committed Create after any run returns the item of the first answer with the same attachments, changing neither tables nor files; once the item has expired it is not found and nothing is created |
| DropHistory.AttachmentsOfAre | services/drop/internal/store/store.go:256-285 | Get returns exactly the attachment rows of the item |
| DropHistory.AttachmentsAscend | services/drop/internal/store/store.go:256-285 | they come in the order of (created_at, id) |
| DropHistory.CleanupSparesLiveItems | services/drop/internal/store/store.go:384-410 | cleanup deletes no item that is unexpired at its Delete, whatever runs between its snapshot and its deletes |
| DropExpiry.ExpiryFollows | services/drop/internal/store/store.go:361-373 | over any run an item keeps every field but its expiry, which is the one that the updates that took effect have given it; it goes only by a Delete of it, and for good |
| DropExpiry.LivesForItsTtl | services/drop/internal/store/store.go:150-156 | after any run without a Delete of it Get finds a created item at exactly the times before its expiry, which without updates is the time of its Create plus its TTL |
| DropCleanup.PassTakes | services/drop/internal/store/store.go:388-410 | after a pass over the earliest-expiring items, the expired ones left are fewer by the limit, or none |
| DropCleanup.PassesDrain | services/drop/internal/store/store.go:384-410 | after k passes of n, n k fewer expired items are left, or none |
| DropCleanup.DrainedExactlyWhen | services/drop/internal/store/store.go:384-410 | the expired items are gone after k undisturbed passes exactly when k is at least their number divided by the limit, rounded up |
| DropPaging.WalkFalls | services/drop/internal/store/store.go:204-236 | following cursors never repeats or reorders, whatever changes between requests |
| DropPaging.PageIsActive | services/drop/internal/store/store.go:204-236 | every item of a page was active when that page was read |
| DropPaging.WalkIsComplete | services/drop/internal/httpapi/api.go:246-289 | a finished walk has delivered every item active at each of the requests it made |
| DropPaging.FrozenWalk | services/drop/internal/httpapi/api.go:246-289 | over an unchanging table the walk is exactly the active items in descending order, finished in floor(n / limit) + 1 requests and no fewer |
| DropPaging.WalkOverRuns | services/drop/internal/httpapi/api.go:246-289 | with any runs of operations between pages: what a page delivers is a row of the table that has not expired in the state of that page, no item is delivered twice, and an item that is there and unexpired in the states of all pages is delivered |
| DropPaging.PageMeans | services/drop/internal/store/store.go:204-236 | a page holds rows with expiry later than now, below the cursor, strictly falling in (created_at, id), and leaves out such a row only if it is full and the row lies below its last one |
| DropListing.ScanServesEachItem | services/drop/internal/store/store.go:256-285 | one query over many items gives each item the attachments, in order, that its own query would give |
| DropStore.Store.constructor | services/drop/internal/store/store.go:37-83 | an empty store satisfies the invariant |
| DropStore.Store.UsedBytes | services/drop/internal/store/store.go:142-145 | the SUM query computes the active total and never leaves int64 |
| DropStore.Store.Get | services/drop/internal/store/store.go:238-254 | an item is found exactly until it expires, and comes as its row with exactly its own attachment rows, in the order of (created_at, id) |
| DropStore.Store.LoadAttachments | services/drop/internal/store/store.go:256-285 | every item of a page receives exactly its own attachments, in order, and nothing else of it changes |
| DropStore.Store.List | services/drop/internal/store/store.go:204-236 | the items have not expired, lie below the cursor, come strictly falling in (created_at, id) with their own attachments, and none is left out unless the page is full and it lies below the last; a limit outside 1 to 100 means 50 |
| DropStore.Store.Stats | services/drop/internal/store/store.go:375-382 | in every state that satisfies the invariant: usage is the sum of the sizes of the items that expire later than now, and within the quota; the counts are of those items and of their attachments |
| DropStore.Store.MoveUploads | services/drop/internal/store/store.go:157-175 | the moves done before the first failure, and the directory they leave |
| DropStore.Store.RemoveMoved | services/drop/internal/store/store.go:158-162 | the undo removes exactly the blobs moved so far |
| DropStore.Store.InsertAttachments | services/drop/internal/store/store.go:182-190 | all attachment rows are inserted, or the first failure ends the loop |
| DropStore.Store.Total | services/drop/internal/store/store.go:112-121 | the admission loop decides as specified and its total never leaves int64 |
| DropStore.Store.StoreItem | services/drop/internal/store/store.go:150-201 | moves, inserts and commit, with the undo on every failing path, do what the specification says; the row stored and answered has the fields of the input and expires its TTL from the time of the call |
| DropStore.Store.Create | services/drop/internal/store/store.go:107-202 | the whole new state and the result are those of the specification, for every input and failure, and the invariant is kept; a new item has the fields of the input and expires its TTL from now |
| DropStore.Store.StageBlobs | services/drop/internal/store/store.go:340-350 | the staging loop moves each blob that exists aside, under its own new name, and stops at the first failure |
| DropStore.Store.Restore | services/drop/internal/store/store.go:335-339 | restoring in reverse order undoes any staged prefix: the directory is as before |
| DropStore.Store.RemoveStaged | services/drop/internal/store/store.go:355-357 | after the commit, what is gone is exactly the item's blobs |
| DropStore.Store.Delete | services/drop/internal/store/store.go:306-359 | a failed Delete changes neither tables nor files; a successful one removes the item, its attachments, its key and its blobs, and touches nothing else |
| DropStore.Store.SelectNames | services/drop/internal/store/store.go:312-324 | the query yields each storage name of the item once |
| DropStore.Store.CleanupExpired | services/drop/internal/store/store.go:384-410 | exactly the first deleted items of the snapshot, with all that belongs to them, are gone, and each of them had expired; an error stops the pass at the Delete that failed, and otherwise the limit was reached or nothing expired is left |
| DropStore.Store.UpdateExpiry | services/drop/internal/store/store.go:361-373 | succeeds exactly for a positive TTL and an item that has not expired, whose expiry becomes now plus the TTL; nothing else of the tables changes, and a failure changes nothing |
| DropStore.StagedFilesAre | services/drop/internal/store/store.go:340-350 | where every file is after any part of the staging |
| DropStore.UnstageLast | services/drop/internal/store/store.go:335-339 | undoing the last staged file gives the directory as it was with one file fewer staged |
| DropStore.StagedThenRemoved | services/drop/internal/store/store.go:340-357 | staging and then removing the staged files equals removing the blobs |
| DropStore.UndoMoves | services/drop/internal/store/store.go:157-175 | removing the moved blobs leaves the directory without the uploads that were moved, and otherwise as before |
| DropCrash.StepKeepsSafe | services/drop/internal/store/store.go:158-201 | every rename, removal, insert, commit, lock and crash keeps the invariant of the in-flight machine |
| DropCrash.StepsKeepSafe | services/drop/internal/store/store.go:306-359 | so does every interleaving of any number of Creates and Deletes |
| DropCrash.StepKeepsContents | services/drop/internal/store/store.go:158-201 | no step rewrites committed bytes or a committed row |
| DropCrash.NoCommittedBytesLost | services/drop/internal/store/store.go:333-358 | at every later point, crashes included, a committed attachment's bytes are in one file, at its blob path or under a delete-* name, and its row is unchanged |
| DropCrash.ErasedOnlyUnnamed | services/drop/internal/store/store.go:158-162 | a file disappears only by a rename that carries its bytes along, or when no committed row lives in it |
| DropCrash.QuietAgrees | services/drop/internal/store/store.go:306-359 | whenever nothing is in flight and nothing was torn, blobs and rows correspond one to one with matching bytes |
| DropCrash.CrashAgreesIff | services/drop/internal/store/store.go:333-358 | after a crash they correspond exactly when no file was in flight |
| DropCrash.MissingMeansRace | services/drop/internal/store/store.go:343-354 | without crashes a staging loop misses a file only while a Delete whose commit failed is still restoring it without its lock |
| DropCrash.CommitOwnedIff | services/drop/internal/store/store.go:351-357 | a Delete's commit leaves every file accounted for exactly when it holds all files of its item |
| DropOrphan.AgreesExactlyWhen | services/drop/internal/store/store.go:333-358 | over every interleaving from a fresh disk: with nothing in flight tables and blobs agree if and only if no crash hit a file in flight and no Delete committed without all files of its item |
| DropOrphan.TornDisagrees | services/drop/internal/store/store.go:333-358 | after such a crash or commit they disagree in every later state |
| DropOrphan.UnaccountedForEver | services/drop/internal/store/store.go:333-358 | a file without a row that no request holds stays in the directory whatever runs afterwards |
| DropOrphan.OrphanWithoutCrash | services/drop/internal/store/store.go:333-357 | a run without a crash that ends with no request in flight, no row, and a blob left over |
| DropOrphan.FreshDiskLosesNothing | services/drop/internal/store/store.go:158-201 | from a fresh disk, whatever fails and crashes, each committed attachment has its bytes in one file at a known place |
| DropUndisturbed.UndisturbedCreate | services/drop/internal/store/store.go:157-202 | the single steps of an undisturbed Create can be taken whenever the operation succeeds, and leave its tables and files |
| DropUndisturbed.UndisturbedFailure | services/drop/internal/store/store.go:158-201 | an undisturbed Create that gives up, wherever it does, leaves tables and blobs as they were and no new upload |
| DropUndisturbed.UndisturbedDelete | services/drop/internal/store/store.go:306-359 | an undisturbed Delete, in whatever order it renames and wherever it gives up, leaves the tables and files of the operation |
| DropUpload.RefusedFrom | services/drop/internal/httpapi/api.go:136-187 | the first part that the loop refuses |
| DropUpload.EarlyAnswer | services/drop/internal/httpapi/api.go:115-209 | the store is called only after every part was taken, with a TTL of 1, 3 or 7 days and no key or one of 16 to 200 bytes |
| DropUpload.TakenExactlyWhen | services/drop/internal/httpapi/api.go:136-187 | the loop takes a form exactly if every part is a text in UTF-8, a TTL that reads as a number or a file that can be staged, each within its limit, with at most one text and one TTL, the allowed number of files, and everything within the item limit |
| DropUpload.DeployedTakes | services/drop/internal/config/config.go:37-38 | the same for the deployed limits, ten files of up to 500 MiB and 1 GiB in all |
| DropUpload.CalledExactlyWhen | services/drop/internal/httpapi/api.go:115-209 | the store is called exactly for a whole form that the loop takes, not announced as too long, with a text or a file, a TTL of 1, 3 or 7 days if it has one, and no key or one of 16 to 200 bytes |
| DropUpload.StoreIsTold | services/drop/internal/httpapi/api.go:196-209 | what the store is called with: the caller as creator and actor, the text part, the days of the TTL part or one, and the key hashed with the actor |
| DropUpload.FilesAre | services/drop/internal/httpapi/api.go:165-175 | the store is told of exactly the file parts, in order, each with its own temporary file, name, media type, size and digest |
| DropUpload.TakenBounds | services/drop/internal/httpapi/api.go:136-187 | after any accepted parts: at most one text and one TTL, at most the allowed number of files, each within its limit, the total within the item limit |
| DropUpload.RunningTotal | services/drop/internal/httpapi/api.go:135-187 | the running total never exceeds the item limit by more than one part |
| DropUpload.TotalIsSize | services/drop/internal/httpapi/api.go:135-187 | the loop's total is the size of the text and the files that the store is told |
| DropUpload.StagedBytes | services/drop/internal/httpapi/api.go:218-244 | each staged file has the bytes of its part, and the size, name and digest told to the store are its own |
| DropUpload.StoreCallBounded | services/drop/internal/httpapi/api.go:188-209 | every call to the store is within all limits and is not one that the store rejects as invalid |
| DropUpload.NothingLeftStaged | services/drop/internal/httpapi/api.go:130-134 | at every exit the temporary directory holds exactly the uploads it held before |
| DropUpload.PreimageInjective | services/drop/internal/httpapi/api.go:203 | equal hash preimages mean the same actor and the same key |
| DropUpload.CreateKeepsOtherUploads | services/drop/internal/store/store.go:163-175 | Create touches no upload but those it is told about |
| DropUpload.Api.StageAttachment | services/drop/internal/httpapi/api.go:218-244 | a temporary file with the part's bytes, or no file and the reason |
| DropUpload.Api.Gather | services/drop/internal/httpapi/api.go:136-187 | the multipart loop refuses the first bad part with its code, or yields the text, the TTL and the staged files |
| DropUpload.Api.RemovePending | services/drop/internal/httpapi/api.go:130-134 | the deferred removal removes exactly this request's uploads |
| DropUpload.Api.CreateItem | services/drop/internal/httpapi/api.go:115-216 | the whole new state and the answer are those of the specification, and the store's invariant is kept |
| DropUploadRuns.UploadKeepsInv | services/drop/internal/httpapi/api.go:115-216 | a request leaves a state that satisfies the invariant and has evolved from the one before |
| DropUploadRuns.UploadKeys | services/drop/internal/store/store.go:131-196 | a request adds at most one entry to the idempotency table, for its own key and a new item, and an accepted request's key is in it |
| DropUploadRuns.UploadStores | services/drop/internal/httpapi/api.go:136-209 | if a request's key is in the table only afterwards, it leads to a new item with the request's text, and one attachment for each file whose blob has that file's bytes |
| DropUploadRuns.UploadMakes | services/drop/internal/httpapi/api.go:115-216 | an accepted request under a new key or none makes an item that belongs to the caller, has the text of the form, and expires as many days of 86 400 seconds from now as the form asks for |
| DropUploadRuns.UploadLives | services/drop/internal/httpapi/api.go:203-209 | after any run without a Delete or an UpdateExpiry of it Get finds that item exactly until then |
| Text.DecimalReadsBack | services/telegram-bridge/internal/bridge/bridge.go:124 | what %d prints reads back as the same number |
| Text.AtoiMeans | services/drop/internal/httpapi/api.go:160 | what reads as a number is digits with or without a sign, and it reads as their value |
| Text.TrimmedIs | services/telegram-bridge/internal/bridge/bridge.go:170-192 | trimming leaves what lies between the white space of Unicode at both ends, and nothing else is left |
| Text.ValidMeansEncoded | services/drop/internal/httpapi/api.go:150 | bytes pass the UTF-8 check exactly if they encode some text |
| Text.CutInjective | services/drop/internal/httpapi/api.go:203 | text joined by a separator absent from the first piece comes apart in one way |
| Text.EncodingIsValid | services/drop/internal/httpapi/api.go:150 | every encoded text passes Drop's UTF-8 check |
| Text.TrimBytesAgrees | services/drop/internal/httpapi/api.go:160 | trimming bytes that encode a text is trimming the text, white space of Unicode included |
| BridgeMessage.KeyInjective | services/telegram-bridge/internal/bridge/bridge.go:124 | telegram:%d:%d:%d is injective on integer triples |
| BridgeMessage.KeyLengthAccepted | services/drop/internal/httpapi/api.go:198-202 | the key has an accepted length exactly when the three numbers print to at least five characters |
| BridgeMessage.HashInjective | services/drop/internal/httpapi/api.go:203 | messages with the same hash are the same message of the same chat |
| BridgeMessage.CommandExactlyWhen | services/telegram-bridge/internal/bridge/bridge.go:168-177 | a text is a command exactly if, trimmed, it begins with a slash that neither a space nor an at sign follows |
| BridgeMessage.CommandIs | services/telegram-bridge/internal/bridge/bridge.go:168-177 | which command it is: the letters after the slash up to the first space or at sign, in either case |
| BridgeMessage.ForwardsExactlyWhen | services/telegram-bridge/internal/config/config.go:69-75 | a message is forwarded exactly if it is no command, its chat or its sender is on a list, and it has a file that is not too large, or no file and a text or caption that is not blank; from anybody else nothing but a command has any effect; and what the forwarded text is |
| BridgeMessage.EmptyExactlyWhen | services/telegram-bridge/internal/bridge/bridge.go:184-192 | of the forwarded messages exactly the private ones with a caption, no file and a text of white space characters of Unicode only have neither text nor file |
| BridgeMessage.LoopAccepts | services/telegram-bridge/internal/drop/client.go:104-127 | Drop's multipart loop refuses a part that the bridge writes exactly when it cannot create or write the temporary file of the media; otherwise it tells the store the bridge's text and TTL and one file staged with the media's bytes, or none |
| BridgeMessage.DropAnswers | services/drop/internal/httpapi/api.go:188-202 | of the messages that arrive whole Drop refuses, before it calls the store, exactly those whose file it cannot stage, the empty ones and those with a short key, each with its own code |
| BridgeContent.ArrivalAnswers | services/drop/internal/httpapi/api.go:136-202 | however a message arrives: what is cut off is refused, and of the rest exactly the files that Drop cannot stage, the empty messages and the short keys, in this order; an incomplete file is not noticed |
| BridgeContent.StoredAsArrived | services/telegram-bridge/internal/drop/client.go:52-67 | an item that the bridge's request creates holds the message's text and exactly the bytes of its file that arrived |
| BridgeContent.ContentStays | services/drop/internal/store/store.go:361-410 | an item keeps its text and the bytes of its file for as long as it exists |
| BridgeLoop.HandleUpdate | services/telegram-bridge/internal/bridge/bridge.go:98-148 | Drop is called exactly for a message that is no command, comes from a listed chat or sender, and has a file that could be downloaded within the limit, or no file and a text or caption; with that message's text, TTL, key and file; an update whose call fails is not accepted |
| BridgeLoop.HandleBatch | services/telegram-bridge/internal/bridge/bridge.go:81-93 | a batch is handled up to its first failure, and the offset follows the accepted updates |
| BridgeLoop.Run | services/telegram-bridge/internal/bridge/bridge.go:67-96 | the loop produces exactly the specified log of polls, updates and waits |
| BridgeLoop.LogAccepted | services/telegram-bridge/internal/bridge/bridge.go:67-96 | every log is a run of the automaton |
| BridgeLoop.OffsetNeverFalls | services/telegram-bridge/internal/bridge/bridge.go:90-92 | within a process the offset never decreases |
| BridgeLoop.WaitsBackOff | services/telegram-bridge/internal/bridge/bridge.go:69-88 | the wait after f waits since the last successful poll is min(2^f, 30) seconds, and one second after a failed update |
| BridgeDelivery.StepKeepsSound | services/telegram-bridge/internal/bridge/bridge.go:67-148 | every poll, attempt, wait, restart and foreign operation keeps: forwardable updates below the position have been delivered, keys and items stay in step, and keys not in doubt lead to whole messages |
| BridgeDelivery.RunKeepsSound | services/telegram-bridge/internal/bridge/bridge.go:67-148 | so does every run |
| BridgeDelivery.AcceptedInOrder | services/telegram-bridge/internal/bridge/bridge.go:81-93 | in every run without a restart the updates accepted are exactly those of the feed from the bridge's position on, in ascending order, each once |
| BridgeDelivery.AcceptedIsDelivered | services/telegram-bridge/internal/bridge/bridge.go:140-147 | an update is passed only once Drop has held an item under its key |
| BridgeDelivery.OneLiveItem | services/drop/internal/store/store.go:131-196 | of all items ever created under a key, the one that exists is the one the key leads to |
| BridgeDelivery.OnlyListedWrite | services/telegram-bridge/internal/config/config.go:69-75 | over every run a key born since the start is the key of an update whose chat or sender is on a list, or another client brought it |
| BridgeDelivery.DenyAll | services/telegram-bridge/internal/bridge/bridge.go:61-63 | with both lists empty no run of the bridge changes anything in Drop |
| BridgeDelivery.ExactlyOnce | services/telegram-bridge/internal/bridge/bridge.go:67-148 | in every run without deletions no key ever had two items, and each forwardable update confirmed or below the offset has its item |
| BridgeDelivery.ItemsApart | services/telegram-bridge/internal/bridge/bridge.go:124 | different messages have different items |
| BridgeDelivery.KeptWhole | services/telegram-bridge/internal/drop/client.go:52-102 | after every run the item under a message's key is that message, its text and exactly its file's bytes, unless the key was known before, used by another client, or a file arrived incomplete under it |
| BridgeDelivery.OthersKeysDiffer | services/drop/internal/httpapi/api.go:203 | a client with another actor cannot use one of the bridge's keys |
| BridgeDelivery.FromTheStart | services/telegram-bridge/internal/bridge/bridge.go:67-148 | both for every run of a bridge started against any Drop |
| BridgeCrash.CreateAlike | services/drop/internal/store/store.go:107-202 | what Create answers and does to the tables does not depend on what lies in the blobs |
| BridgeCrash.UploadAlike | services/drop/internal/httpapi/api.go:115-216 | nor does what a request is answered and does |
| BridgeCrash.RunShadowed | services/telegram-bridge/internal/bridge/bridge.go:67-148 | every run in which Drop crashes, leaving its directory in any disorder, leaves bridge, tables and committed bytes as a run over an intact Drop does |
| BridgeCrash.ExactlyOnce | services/telegram-bridge/internal/bridge/bridge.go:67-148 | in every run without deletions, crashes of Drop included, no key ever had two items, and each forwardable update confirmed or below the offset has its item |
| BridgeCrash.FromTheStart | services/telegram-bridge/internal/bridge/bridge.go:67-148 | the same from the start of a bridge against any Drop, and what was committed under a message's key that is not in doubt is the whole message |
| BridgeFailures.RefusableIsRefused | services/drop/internal/httpapi/api.go:188-202 | a forwardable message's request is refused before the store is called exactly if it is cut off, Drop cannot stage its file, or the message is empty or has a short key |
| BridgeFailures.BlankTextIsRefusable | services/telegram-bridge/internal/bridge/bridge.go:114-191 | a no-break space with a caption is such a message |
| BridgeFailures.ShortKeyIsRefusable | services/drop/internal/httpapi/api.go:199 | so is an early message of a chat and a bot with one-digit numbers |
| BridgeFailures.StuckForEver | services/telegram-bridge/internal/bridge/bridge.go:81-90 | no run that begins before such an update gets past it |
| BridgeFailures.KeptAsItArrived | services/telegram-bridge/internal/drop/client.go:59-67 | the item under a message's key holds, in every later state, what arrived with the first request that created one: the whole message if and only if its file was read to the end |
| BridgeFailures.RetryIsAnswered | services/drop/internal/store/store.go:131-141 | while the item has not expired, any later request under its key changes no table, and without a failing call it is answered with that item exactly if it arrives whole or truncated and Drop can stage its file |
| BridgeFailures.IncompleteForGood | services/telegram-bridge/internal/drop/client.go:59-67 | for every deliverable message with a file and every position in it, a run that accepts the message and leaves only that much of the file in Drop |
| IamSetup.StepKeepsInv | apps/iam/internal/humanauth/service.go:209-258 | every statement of every setup call, in any interleaving, keeps the invariant of lock, snapshots and owner |
| IamSetup.AtMostOneOwner | apps/iam/internal/humanauth/service.go:209-258 | at most one owner is ever created, with the fields of the confirmed setup, which is deleted and its token consumed |
| IamSetup.CommitIsExact | apps/iam/internal/store/postgres/store.go:151-168 | the commit creates the owner, removes that setup and consumes that token, and nothing else |
| IamSetup.OwnerIsForever | apps/iam/internal/humanauth/service.go:228-234 | once there is an owner no confirmation passes, no setup is validated, and the owner does not change |
| IamSetup.OwnerWasInvited | apps/iam/internal/humanauth/service.go:170-258 | over every run: the owner's setup was validated within a week of the start that made its bootstrap token, when that was unused and there was no owner, and a confirmation that began within 15 minutes of the insert of that setup made the owner |
| IamSession.Sessions.Create | apps/iam/internal/humanauth/service.go:575-594 | a new session, if not used again, is accepted at every time of its first 30 days and at none after them; no other session changes |
| IamSession.Sessions.Authenticate | apps/iam/internal/store/postgres/store.go:180-188 | accepts exactly if the session was never revoked, is under 180 days old and no two uses in its history, this one included, are 30 days apart; the row continues to be the one its history makes |
| IamSession.Sessions.RevokeSession | apps/iam/internal/store/postgres/store.go:198-201 | the session is refused at every later time, its history goes on, and no other session changes |
| IamSession.Sessions.RevokeByID | apps/iam/internal/store/postgres/store.go:203-209 | succeeds exactly for the owner's own session that was never revoked before; an owner's session is refused at every later time either way, and nobody else's changes |
| IamSession.Sessions.RevokeOthers | apps/iam/internal/store/postgres/store.go:211-217 | every other session of the owner is dead at every later time, the current one is untouched, and the count is of those it ended |
| IamSession.IdleFollowsLastAcceptedUse | apps/iam/internal/store/postgres/store.go:180-188 | after every history whatever a session was last seen at its last accepted use, and its idle expiry is min(that use + 30 days, creation + 180 days) |
| IamSession.AcceptedExactlyWhen | apps/iam/internal/store/postgres/store.go:180-188 | accepted exactly when never revoked, under 180 days old and without a gap of 30 days between uses |
| IamSession.RefusedForEver | apps/iam/internal/store/postgres/store.go:180-188 | once refused, refused for ever |
| IamLogin.Limiter.Login | apps/iam/internal/humanauth/service.go:260-297 | rate-limited exactly if at least five denials of the last 900 seconds have this name or this address; otherwise denied exactly if a credential is wrong, and welcomed from a known address; a denial is recorded exactly if the address is known and the audit does not fail |
| IamLogin.WindowsHoldAtMost | apps/iam/internal/humanauth/service.go:264-297 | every 15-minute window of every run holds at most four recorded denials per name and per address, and as many more as attempts are ever under way together: five if they come one after another |
| IamLogin.BoundIsReached | apps/iam/internal/humanauth/service.go:264-297 | for every number of overlapping attempts from one on there is a run from an empty log that reaches that bound |
| IamLogin.FiveExactlyWhen | apps/iam/internal/humanauth/service.go:264-297 | no window of any run holds more than five denials of a name or from an address if and only if at most one attempt is under way at a time |
| IamLogin.LoginIsCheckAndFinish | apps/iam/internal/humanauth/service.go:260-297 | a call that nothing overlaps is a check, possible exactly if it is not rate-limited, and an end, with the same answer and the same log |
| IamLogin.WindowsAreLimited | apps/iam/internal/humanauth/service.go:264-297 | calls that come one after another leave at most five recorded denials per name and per address in every window |
| IamLogin.LimitedLeaveNoTrace | apps/iam/internal/humanauth/service.go:264-297 | taking the rate-limited attempts out of any run changes no other answer and no record, so they never extend a lockout |
| IamLogin.LockoutEnds | apps/iam/internal/humanauth/service.go:264-272 | the lockout is over 15 minutes after the last recorded denial |
| IamLogin.UnknownAddressIsNotLimited | apps/iam/internal/httpapi/human_handlers.go:596-605 | the case in which the limit does not hold |
| IamTotp.CodeIsSixDigits | apps/iam/internal/humanauth/service.go:708-717 | a text is the code of a MAC exactly if it is six digits that say, modulo a million, the four big-endian bytes from the one that the low four bits of the last byte choose, without the first bit |
| IamTotp.TruncateReads | apps/iam/internal/humanauth/service.go:713-716 | the truncated value read back byte by byte |
| IamTotp.RfcExample | apps/iam/internal/humanauth/service.go:708-717 | the MAC of section 5.4 of RFC 4226 gives 872921 |
| IamTotp.ValidateTotp | apps/iam/internal/humanauth/service.go:691-706 | the three-step loop accepts exactly the texts that say the chosen bytes of one of the three counters' MACs |
| IamTotp.AcceptedNearby | apps/iam/internal/humanauth/service.go:700-705 | a code is accepted at every time within 30 seconds of its own |
| IamTotp.AcceptedMeans | apps/iam/internal/humanauth/service.go:700-705 | from time 30 on acceptance means the code of the previous, present or next step |
| IamTotp.FirstStepWraps | apps/iam/internal/humanauth/service.go:700-702 | before time 30 the window reaches back to the last counter |
| AccessToken.CollectPermissions | apps/iam/internal/token/signer.go:93-104 | the loop keeps first occurrences, or refuses the first bad scope |
| AccessToken.DeduplicatedSame | apps/iam/internal/token/signer.go:93-104 | deduplication keeps every permission and invents none |
| AccessToken.DeduplicatedDistinct | apps/iam/internal/token/signer.go:93-104 | no permission is left twice |
| AccessToken.Issue | apps/iam/internal/token/signer.go:82-128 | refuses as specified, or signs the compact form of claims with these fields: issuer, the requested audience, subject, realm, party, session and permissions without repetitions, an actor only if it is another one, and the times of the issue in whole seconds |
| AccessToken.ScopesArePermissions | apps/iam/internal/token/signer.go:25 | every scope the signer accepts is a permission the verifier accepts |
| AccessToken.CompactSplits | packages/go-sdk/identity/identity.go:98-101 | the compact form of section 7.1 of RFC 7515 splits into its three pieces |
| AccessToken.IssuedValid | packages/go-sdk/identity/identity.go:132-154 | of the conditions on issued claims only audience, ceiling and times can fail |
| AccessToken.IssueThenVerify | packages/go-sdk/identity/identity.go:94-154 | an issued token verifies to its claims from 15 seconds before its issue up to its expiry, and at no other time |
| AccessToken.VerifiedExactlyWhen | packages/go-sdk/identity/identity.go:94-154 | whatever token is presented: it verifies to claims exactly if it is at most 8192 bytes, three pieces of which the third checks, under a key that the header names, as a signature of the first two, the second decodes to the claims, and these are for this audience, well formed, within the ceiling and within their times |
| AccessToken.OnlyIssuedVerify | packages/go-sdk/identity/identity.go:116-119 | if nothing checks but what the signer has signed, every token that verifies carries the claims of one that was issued |
| AccessToken.SubjectIs | packages/go-sdk/identity/identity.go:23 | what a subject may be |
| AccessToken.AudienceIs | apps/iam/internal/token/signer.go:22 | what an audience may be |
| AccessToken.SegmentsAre | packages/go-sdk/identity/identity.go:24 | scopes and permissions are pieces joined by dots |
| AccessToken.BareAudienceIsNeverVerified | packages/go-sdk/identity/identity.go:77-79 | an audience the signer accepts has a verifier exactly if it is not the bare one |
| AccessToken.IssuedAllows | packages/go-sdk/identity/identity.go:57-68 | issued claims allow exactly what was requested, or everything with system.root |
| TokenCache.Client.Token | services/telegram-bridge/internal/iam/client.go:49-87 | serves the cache or exchanges, a failed exchange leaves the cache, and with a signer as configured the token served verifies at that moment to the claims it was issued with; a cached one has more than 19 seconds left |
| TokenCache.LifeLeft | packages/go-sdk/identity/identity.go:132-154 | a token that the cache still serves has more than 19 seconds of validity left |

## Left out

- Cryptography and codecs: SHA-256, Ed25519, HMAC, AES-GCM, Argon2, JSON, base64url and WebAuthn are parameters, preimages or stated laws.
- PostgreSQL's isolation: a transaction is one step, except in `DropCrash` and `IamSetup`, where its statements interleave under the locks the code takes.
- DropRuns.CreateSucceeds: a text with a NUL, which PostgreSQL refuses for ever, is not told apart from an insert that fails once; such a message would stop the bridge too.
- DropUpload.KeyOf: the Idempotency-Key header is a text, so a header value that is not valid UTF-8 has no counterpart.
- BridgeCrash.ExactlyOnce: after a crash of Drop its files are arbitrary here; that the committed bytes survive is proved in `DropCrash`, of requests without the bridge.
- Ambiguous commits, compensations that fail, and the order in which a power loss reaches the disk: the code has no recovery for them.
- The advisory lock of Create: `DropCrash` lets any number of Creates run at once, which is more than the lock allows.
- DropCrash.StepKeepsSafe: does not tie a commit to all attachments of its request having been moved, since any subset of them keeps the invariant.
- Database errors while listing, reading statistics or selecting for cleanup end the call without an effect and have no parameter of their own.
- DropStore.Store.UpdateExpiry: the update and the Get after it are one step; a delete between the two would be reported as not found.
- Identifiers in Drop are numbers, so the checks for an empty identifier have no counterpart.
- DropUpload.Api.Gather: a read error is a flag of the part, not a position in its bytes.
- File names, media types and content disposition: string cleanup that would only add easy members; a part carries the cleaned name.
- Selecting the largest photo, chat and sender names, and the wording of replies: a message carries the outcome.
- Download of an attachment, events, health probes, headers and logging.
- BridgeLoop.Run: the context's end is the end of the script or of a wait; an update identifier is below the largest 64-bit number.
- The bridge's calls time out in the code; here a call yields or fails.
- BridgeDelivery.ExactlyOnce: assumes that no item is deleted meanwhile; an item that expires is still counted until it is deleted.
- BridgeDelivery.KeptWhole: assumes what Telegram guarantees, that no two updates carry the same message and that a file has the same bytes whenever it is read.
- BridgeContent.CanArrive: file names are not empty, files are within Telegram's 20 MB and texts far below Drop's limit.
- DropHistory.RetryReturnsSameItem: the first answer of the code still carries the nanoseconds of the process clock, which the database does not keep.
- Share redemption and share sessions: their check and their increment are separate statements, so no property of whole runs holds of them.
- API keys, passkeys, CSRF tokens and cookies.
- IamSession.Sessions.Authenticate: the owner is always active, since no code disables one.
- IamTotp.AcceptedNearby: times before 1970 are left out.
- TokenCache.Client.Token: the mutex is the method's atomicity, and what the response must contain is one condition.
- The AI gateway, the control catalog, the Rust SDK, the front ends, deployment and proxy configuration.
