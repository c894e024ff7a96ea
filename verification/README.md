# A model of the synchroniser, the vault and their helpers

The project models the parts of DiscoDrive that move, rename, delete or re-encode a user's files,
and proves what they promise. Objects whose methods change fields are classes, loops over buffers
are loops over arrays, and what the loops compute is stated by functions whose own properties are
proved as lemmas.

## The synchroniser

*Files.* `FileSystem` is a finite tree of folders and files with the few calls of Go's `os` package
that matter (`MkdirAll`, `RemoveAll`, whole or stopped half-way, and `Rename` with the rules of
rename(2)). `SyncTypes` has index rows, feed entries and the names the scan passes over. Contents
are byte sequences and their hash is an abstract function that never confuses two of them.

*The server and its feed.* `Feed` is a tree of nodes with ids and versions, the operations on it,
and the block of entries each operation adds to the feed, one entry per live descendant, parents
first. `Remote` is the same server behind the requests of a push; requests can fail at any time, each
that goes through adds the block of its operation to the feed, and the server notes what it has
refused and which conflict copies it has stored.

*Pulling.* `Engine` is the engine with its folder, index, cursor and epoch. It can be stopped
between any two effects. What it downloads is what a node holds at that time. `Replay` explains why
a client that was in step follows the feed exactly, through any number of stops, and `LooseReplay`
why a pull over a folder full of other things still puts the whole tree in place. A pull is followed
under a ghost `Mode`: `Exact`, `Over` or `Free` (nothing known beforehand).

*Pushing.* `LocalChanges` and `Detect` are the scan and the pairing of moves, `Push` the order,
`PushState` and `PushRun` the state of server and index after every single request, and `PushLocal`
the code. The central idea is that at any moment the server holds the local tree on the paths dealt
with, its own tree on the others, and the conflict copies beside them. `Chronicle` says what the
requests of each change have put into the feed, and that later requests leave it true.

*A whole pass.* After a push the client reads the feed: first what others have written since the
last pull, old contents included (`Foreign`), then its own requests, files in passing included
(`CatchUp`). `Forecast` has the steps this is made of, and `SyncPass` what a pass comes to. `Scope`
is the reset after a scope change, the sweep, and the order of a pass; `Cases` are the inputs on
which a pass does less than one might expect.

*Scheduling.* `RunLoop` is the loop with its one-place channel, debounce timer and backoff as a
state machine over all interleavings.

Main results: a pull ends in step with the server wherever pages are cut and whatever stopped it
before; one that nothing disturbs returns ok if and only if every entry that brings content brings
what its node holds now; moving a folder downloads nothing; a push leaves the server equal to the
local tree and never loses a file on the way; an undisturbed push under an up-to-date index succeeds
exactly when no file that changes both folder and name has to pass through a taken path, and
otherwise stops at the first one that has, with everything before it sent; the feed of
a pass, as the server's operations make it, leads from the pushed state to the server's index, and
to its tree exactly when no move has mixed files up and everything others have written has arrived;
both sides of a conflict survive a pass on the server; after a push the index has every sent node
under the version the server answered; no pass pushes under another scope, a pass that finds a new
epoch returns ok exactly when it has stored it, and it is stored only over an exact mirror.

## The vault

`Crypto` states the laws assumed of the primitives, with a witness that they are consistent
(`Crypto.LawsAreConsistent`).
`Siv`, `Base64` and `Names` are the spelling of names, `Content` the chunked contents in both the
streaming and the in-memory form, `KeyWrap` and `Scrypt` the key handling. `VaultStore` defines
when a store of hashed directories represents a plain tree, and a store represents one tree at most;
everything that reads or writes a vault is proved against that one relation: `EncryptTree`,
`DecryptTree`, the lazy operations (`Lazy`, and any sequence of them, refused ones included, in
`LazySession`), the Swift operations (`VaultWrite`), and opening and closing (`VaultManager`).
Stores can fail at any call; a store marked `reliable` fails only for reasons that lie in the tree,
and on such a store it is shown when every operation succeeds. Of a vault that represents nothing it
is shown that unpacking it with ok lets nothing unauthentic through.

## Upload and cache

`Upload` is the resumable chunk protocol over a lossy line, `ContentCache` the on-demand cache,
whose refresh is proved to leave every node as the last entry about it says, every older copy stale,
and every copy that is left with the bytes it had.

## Points where the code does less than one might expect

Each is stated with the exact condition.

- An entry for a content the server no longer has cannot be passed: the download brings the node's
  present bytes and the hash check fails. Every later pull stops at the same entry for as long as
  the node holds something else (`Engine.PullOnce`; an entry is passable if and only if the server
  still has the node with those bytes, `Engine.CurrentIffNotSuperseded`; a file created and updated,
  or created and deleted, between two pulls is an example, `Engine.RewrittenIsStuck`,
  `Engine.DeletedIsStuck`).
- Deleting a file that somebody else has rewritten since the last pull: the request carries no
  version, so the other side's bytes are gone, and the entry that told of them stops every later
  pull (`Cases.ForeignUpdateIsDeleted`, `Cases.ForeignUpdateIsLost`).
- A file moved by a push keeps the version the index had, while the server may count it up. Until a
  pull gets through, such a file is out of date, and no other sent one is: edited again, it goes up
  under an old version and becomes a conflict with the user's own move
  (`PushLocal.OnlyMovedAreOutdated`).
- A file that changes folder and name passes through the new folder under its old name. If that
  path is taken the push fails (`PushLocal.PushLocal`, with the example `Cases.AWayCanBeTaken`).
- The client's own pull replays that detour in its folder. If the path in between holds a file that
  a later move has put there, that file is displaced and, with a third such move, mixed up with
  another: the pass returns ok, the index is the server's, and a file holds another one's bytes.
  That happens if and only if a move finds its own path emptied in this way while the path it passes
  through is not, and holds something else; the plan shows it before the push (`Straight` in
  `CatchUp.PulledIff` and `CatchUp.StraightIff`; `Cases.FilesCanBeMixedUp` is a plan of which it is
  not true, `Cases.MixedUpAfterPass` what a pass with it leaves).
- A conflicting file keeps the local edit in the folder, in place of the server's bytes, if and only
  if nobody has written bytes other than those last synchronised, which is to say, if the pull
  downloads what the server has, that the server's bytes have the hash the index knew
  (`CatchUp.ConflictEndsUp`, `SyncPass.CalmConflictEnds`, `Cases.ConflictCanStay`).
- The scan compares kinds in one direction only: after an empty report kinds agree if and only if no
  path of a file row is a folder on disk (`LocalChanges.EmptyReportMeansKindsIff`,
  `LocalChanges.KindSwapIsNotReported`).
- Writing a file over a folder reports success, on a store that works, if and only if the name is
  long and no folder is where the contents go; the folder stays all the same (`Lazy.WriteFile`). A
  file renamed to the name of a folder goes through, and is lost, under the same condition
  (`VaultWrite.RenameEntry`). Making a folder over a folder, or over a file with a long name,
  silently replaces it (`Lazy.MakeDir`).
- When the wipe at the end of closing a vault stops half-way and closing is tried again, the vault
  is replaced by what the wipe had left; nothing is lost if and only if it had removed nothing
  (`VaultManager.Manager.CloseAgain`).
- The low 64 bits are enough for scrypt's Integerify if and only if the cost divides 2^64
  (`Scrypt.LowBitsSufficeIff`).
- Opening a pinned copy that is stale downloads it again, and it is pinned no more
  (`ContentCache.Controller.Open`).
- Unpinning stamps the current version on a node without a download, and enters a record even for
  one that has no copy. That keeps the cache right, whatever the contents, if and only if there is a
  copy and it is not stale (`ContentCache.UnpinIsRightIff`, `ContentCache.StaleCopyExists`).

## Model

| member | source | states |
|---|---|---|
| Engine.Engine.PullOnce | daemon/internal/engine/engine.go:33-56 | Stopped anywhere it is still on its way along the feed; returning ok it has applied all of it, wherever pages were cut and whatever stops came before, and only nodes that some entry brings content for were downloaded. Undisturbed and begun between two entries it returns ok if and only if every such entry still to come brings what its node holds now; otherwise it ends before one that does not, and no later pull gets past it. |
| Engine.Engine.ApplyPage | daemon/internal/engine/engine.go:43-50 | A page moves the client on by exactly its entries, or stops it at some entry from which it can go on, before a superseded one if nothing else stopped it. |
| Engine.Engine.Advance | daemon/internal/engine/engine.go:44-49 | The cursor moves only after the entry has taken effect; stopped before that, the entry can be begun again; a superseded entry leaves everything as it was. |
| Engine.Engine.Apply | daemon/internal/engine/engine.go:134-230 | From every state an earlier stop can leave, an entry ends with its full effect on folder and index, or stops in a state that can be continued. Undisturbed, in any folder, it ends if and only if nothing is in the way and a download it needs is accepted; a tracked one always does. |
| Engine.Engine.ApplyDelete | daemon/internal/engine/engine.go:140-150 | A delete removes the subtree and one row, also after an earlier removal got half-way. |
| Engine.Engine.ApplyDir | daemon/internal/engine/engine.go:152-177 | A directory entry renames the known folder in one go or makes it; both leave the folder where the feed says. |
| Engine.Engine.ApplyFile | daemon/internal/engine/engine.go:179-230 | A file entry with the known hash costs no download; any other leaves exactly the bytes with the entry's hash. Undisturbed it succeeds if and only if the old copy can be moved and then the file is in place, or there is room for it and what its node holds has the entry's hash. |
| Engine.Engine.BringOldCopy | daemon/internal/engine/engine.go:184-195 | A file known under another path is moved to the new one first, and afterwards at most its content is outstanding; undisturbed this succeeds exactly if the move has room. |
| Engine.Engine.FetchContent | daemon/internal/engine/engine.go:203-230 | The target gets the downloaded bytes only if their hash is the entry's, and never over a folder; the client stays before an entry whose node holds something else. |
| Engine.Engine.DownloadBeside | daemon/internal/engine/engine.go:206-224 | The download goes to an unused temporary name; undisturbed it is accepted if and only if the node is there with the entry's hash, and one that is not leaves the folder as it was. |
| Engine.Engine.Publish | daemon/internal/engine/engine.go:225-229 | The rename replaces the target by the temporary file and nothing else, and the row follows; undisturbed this fails only over a folder, and then nothing is left of the download. |
| Engine.Source.Changes | daemon/internal/engine/source.go:22-26 | Pages are consecutive, non-empty while there is more, and cut anywhere. |
| Engine.Source.Download | daemon/internal/engine/source.go:25 | A download is by node, is noted, and brings what the node holds now; it fails for a node that is gone. |
| Engine.CurrentIffNotSuperseded | daemon/internal/engine/engine.go:203-224 | An entry of any history can be passed if and only if the server at the end of the history still has the node with the entry's bytes. |
| Engine.RewrittenIsStuck | daemon/internal/engine/engine.go:220-224 | A file created and then updated while the client was away: the first entry cannot be passed. |
| Engine.DeletedIsStuck | daemon/internal/engine/engine.go:203-224 | A file created and then deleted while the client was away: the first entry cannot be passed. |
| Engine.FollowingExtends | daemon/internal/engine/engine.go:33-56 | A client stopped anywhere along a feed is still following it when the server has gone on and the feed has grown. |
| Engine.FollowingStarts | daemon/internal/engine/engine.go:33-56 | A client in step with a server can follow the feed of any history that starts there. |
| Engine.FollowingEnds | daemon/internal/engine/engine.go:33-56 | Having followed it all, the client's folder and index are those of the server's final state. |
| Replay.HistoryLeads | daemon/internal/engine/engine.go:134-230 | The feed of any sequence of creates, updates, moves and deletes leads from the first server state to the last, entry by entry. |
| Replay.OnlyCreatesAndUpdatesBringContent | daemon/internal/engine/engine.go:152-177 | No entry of a move or delete, however many descendants it names, is downloaded. |
| Replay.DirIsTracked | daemon/internal/engine/engine.go:158-175 | Wherever an earlier attempt stopped, a directory entry finds the rename still due or the tree already complete. |
| Replay.FileIsTracked | daemon/internal/engine/engine.go:184-195 | The same for a file whose old copy has to be moved. |
| Replay.PublishSucceeds | daemon/internal/engine/engine.go:225-228 | On the way along the feed nothing is in the way of the final rename. |
| Feed.BlockSettles | daemon/internal/engine/engine_test.go:173-176 | Each entry of an operation's block can be applied from the state the entries before it lead to, and brings content only for creates and updates. |
| Feed.BlockEnds | daemon/internal/engine/engine_test.go:173-176 | After the whole block the rows are exactly the server's nodes. |
| LooseReplay.CoversStep | daemon/internal/engine/engine.go:134-230 | Over a folder with arbitrary other entries each applied entry still puts its part of the server's tree in place, files taken along by a folder rename included. |
| LooseReplay.RenameKeepsMove | daemon/internal/engine/engine.go:158-171 | A folder rename in the middle of a move's entries disturbs no node already placed. |
| LocalChanges.EmptyReportMeansAgreement | daemon/internal/engine/detect.go:31-101 | The report is empty if and only if folder and index have the same paths and hashes. |
| LocalChanges.EmptyReportMeansKindsIff | daemon/internal/engine/detect.go:72-77 | After an empty report folder and index agree in paths, kinds and hashes if and only if no path of a file row is a folder. |
| LocalChanges.KindSwapIsNotReported | daemon/internal/engine/detect.go:72-77 | An input on which that fails: a known file that became a folder. |
| Detect.DetectLocal | daemon/internal/engine/detect.go:31-101 | The report has every differing path exactly once, with the change that describes it, and no other. |
| Detect.Walk | daemon/internal/engine/detect.go:47-92 | The walk reports creates and updates exactly on the visible paths it has seen. |
| Detect.KeyByPath | daemon/internal/engine/detect.go:41-44 | Re-keying the index by path loses nothing when paths are unique. |
| LocalChanges.PairLocalMoves | daemon/internal/engine/push.go:44-74 | The queues and the two maps compute the first-come-first-served matching, order kept otherwise. |
| LocalChanges.MatchCreates | daemon/internal/engine/push.go:53-61 | The i-th create of a content takes the i-th delete of it, and exactly those deletes are consumed. |
| LocalChanges.MatchingIsMaximum | daemon/internal/engine/push.go:41-74 | For every content the number of moves is the smaller of its deletes and creates. |
| LocalChanges.SourcesDiffer | daemon/internal/engine/push.go:53-61 | No delete is used twice. |
| LocalChanges.PairingPreservesTheEffect | daemon/internal/engine/push.go:41-74 | Carrying out the rewritten list on paths and contents gives what the original list gives. |
| Push.SortChanges | daemon/internal/engine/push.go:89-109 | The sorted list is ordered, has the same changes, and keeps those that compare equal in their order. |
| Push.PairedIsPlan | daemon/internal/engine/push.go:82-85 | After pairing, the list still accounts for every difference once, each move joining a delete and a create of one content. |
| PushLocal.PushLocal | daemon/internal/engine/push.go:77-226 | What is sent is the changes a scan reports, paired and sorted. A push without errors ends as Finished says, and the feed has gained the entries of its changes, one after the other; the index then has the row of every node created or updated as the server has it, version included, and of every moved one its old row at the new path, and a push that fails leaves the index as after one of the changes; after every request nothing the local tree has is lost; the conflicts are the copies the server has stored, and unless it has stored one it refuses no create, update or delete; under an up-to-date index an undisturbed push succeeds if and only if every move's way is free, and otherwise stops at the first that is not, with the server as the changes before it make it. |
| PushLocal.SendAll | daemon/internal/engine/push.go:118-225 | The loop carries that state through all changes, in order, or stops where the first one fails. |
| PushLocal.SendFolder | daemon/internal/engine/push.go:124-133 | A new folder's request and row move the push on by one change; only a conflict copy can make the server refuse. |
| PushLocal.SendFile | daemon/internal/engine/push.go:136-170 | A file goes up under its known version, and its row gets the version the server answers; a conflict leaves index and server file alone and is noted with its copy, and there is none under an up-to-date index. |
| PushLocal.OnlyMovedAreOutdated | daemon/internal/engine/push.go:141-213 | After a push without conflicts from an up-to-date index a path is out of date if and only if it is that of a moved file whose version the server has counted up. |
| PushLocal.SendMove | daemon/internal/engine/push.go:171-213 | MoveNode then RenameNode carry the same node to its new path, with the file present on the server in between; undisturbed it gets through if and only if the path in between is free, and otherwise changes nothing. |
| PushLocal.MoveIntoFolder | daemon/internal/engine/push.go:179-203 | The first half puts the node into the new folder under its old name and changes nothing else; a failure changes nothing. |
| PushLocal.GiveName | daemon/internal/engine/push.go:204-208 | The second half completes the move. |
| PushLocal.ParentOf | daemon/internal/engine/push.go:181-199 | The target folder's id is found in the index; a folder the index does not know is made and its row entered. |
| PushLocal.SendDelete | daemon/internal/engine/push.go:214-222 | A delete's request and row move the push on; nothing but the path itself is left there to be deleted. |
| Cases.AWayCanBeTaken | daemon/internal/engine/push.go:200-208 | An example: moving x to b/y while b/x exists. Whatever the order of the scan, the plan is this one move, whose way is not free. |
| PushRun.NothingIsLeftBelow | daemon/internal/engine/push.go:86-109 | When a recursive delete is due, the order has already emptied the folder. |
| PushRun.FolderIsUp | daemon/internal/engine/push.go:86-109 | When a create, update or move is due, the order has already put its folder on the server. |
| PushRun.OnTrackKeeps | daemon/internal/engine/push.go:118-225 | After any request, every file kept in place is on the server as the same node with its old or new bytes, and every file moved is there under some path. |
| PushRun.PushEnds | daemon/internal/engine/push.go:77-226 | Where a push without errors leaves each path, each row, each conflict and each conflict copy. |
| PushRun.QuietPushAgrees | daemon/internal/engine/push.go:77-226 | Without conflicts and foreign changes the server's tree equals the local tree and the next scan is empty. |
| PushRun.PushAccounts | daemon/internal/engine/push.go:77-226 | After a push every node of the server is as before or one change of the plan is about it, and a file that was there before is in conflict only if it was edited. |
| PushRun.WayIsLater | daemon/internal/engine/push.go:171-208 | A local file at a free path a move goes through is the target of a move still to come. |
| Chronicle.StillChronicled | daemon/internal/engine/push.go:118-225 | What the feed tells of the changes sent so far stays true through the next one, conflict copies and deletes included. |
| Chronicle.FileMoveShows | daemon/internal/engine/push.go:200-208 | A server move of a file adds one entry, which shows the same node with the same hash at its new path. |
| PushState.Updated | daemon/internal/engine/push.go:141-170 | An accepted update changes the server and the index at that path only. |
| PushState.Conflicted | daemon/internal/engine/push.go:157-163 | A conflict adds the copy on the server and changes nothing else, rows included. |
| PushState.MoveCarries | daemon/internal/engine/push.go:200-208 | A server move of a file takes that node to the new path and touches no other. |
| Remote.Remote.PushFile | daemon/internal/engine/push.go:24-29 | A matching version updates, a free name creates, anything else keeps the server's file and stores a copy; a calm server refuses for no other reason. |
| Remote.Remote.MoveNode | daemon/internal/engine/push.go:36-39 | The node keeps its name and changes folder, if the place is free. |
| Remote.Remote.DeleteRemote | daemon/internal/engine/push.go:24-29 | The whole subtree goes. |
| Forecast.ShowStep | daemon/internal/engine/engine.go:179-230 | An entry for a node where it is now: the client takes the content exactly if it does not know the node or has lost the file. |
| Forecast.BounceStep | daemon/internal/engine/engine.go:184-201 | The two entries of a move in passing: a file that is there is moved aside and back over whatever is in between, one that is missing is taken to be the one in between, or downloaded if there is none. |
| Forecast.UpdateStep | daemon/internal/engine/engine.go:197-224 | An entry for an update by others is downloaded exactly if its hash is not the one the client knows. |
| Foreign.UpdatesFollowed | daemon/internal/engine/engine.go:33-56 | The entries of any updates by others can be followed from the pushed state and leave the files and rows Fetched describes. |
| Foreign.FetchedAt | daemon/internal/engine/engine.go:197-201 | Through any number of updates a file becomes the server's if one of them wrote other bytes than it had to begin with, and otherwise stays what it is locally. |
| CatchUp.NewsFollowed | daemon/internal/syncer/syncer.go:45-48 | The feed of foreign updates followed by the push's own requests can be followed to its end from the pushed state; the index is then the server's and the folder is PulledTree. |
| CatchUp.StoryFollowed | daemon/internal/engine/engine.go:134-230 | The entries of the client's own changes, one change after the other, take the folder where Replayed says. |
| CatchUp.PulledIff | daemon/internal/syncer/syncer.go:45-48 | The folder ends up as the server's tree if and only if no change of the plan displaces a file (its own path emptied in passing by an earlier move, the one it passes through not, and holding something else) and every file others have written has arrived. |
| CatchUp.StraightIff | daemon/internal/engine/engine.go:184-201 | Replaying the plan's detours in the local tree loses no path; it changes nothing if and only if no change displaces a file, and a displaced file has the bytes of the one its own passed by. |
| CatchUp.ConflictEndsUp | daemon/internal/engine/engine.go:197-201 | At the path of a conflict the pull leaves the server's file if and only if others have written bytes other than those last synchronised; the local bytes are in the copy, on both sides. |
| SyncPass.PullStarts | daemon/internal/syncer/syncer.go:45-48 | After the push the client is at the start of that feed. |
| SyncPass.PullEnds | daemon/internal/syncer/syncer.go:45-48 | Having followed it, the pass ends as PassEnds says. |
| SyncPass.CalmConflictEnds | daemon/internal/engine/engine.go:197-224 | If the pull gets through and downloads what the server has, the folder has the server's bytes at the path of a conflict if and only if the hash the index knew is not theirs. |
| SyncPass.NotWrittenBack | daemon/internal/engine/engine.go:220-224 | A pull that gets through has met no file that was written over and then back. |
| SyncPass.NothingSuperseded | daemon/internal/engine/engine.go:203-224 | If nobody else has written anything, no entry of the client's own requests is superseded. |
| Cases.FilesCanBeMixedUp | daemon/internal/engine/push.go:171-208 | An example: a client in step, n1, n2 and n3 moved into b as m, n1 and n2. A scan leads to the plan of these three moves, every way is free, and one displaces a file. |
| Cases.MixedUpAfterPass | daemon/internal/engine/engine.go:184-201 | A pass with that plan ends with the bytes of b/n2 at b/n1, while the server has the right ones there and the index their hash. |
| Cases.ConflictCanStay | daemon/internal/engine/engine.go:197-201 | An example: the same bytes written again on the server and an edit locally; every push that gets through ends in a conflict, and the pull leaves the edit. |
| Cases.ForeignUpdateIsDeleted | daemon/internal/engine/detect.go:92-100 | A file gone from the folder is planned to be deleted, whatever others have done to it. |
| Cases.ForeignUpdateIsLost | daemon/internal/engine/push.go:214-222 | For any file: a foreign update followed by the delete request leaves its bytes nowhere, and a client in step after that stands before an entry no pull gets past. |
| Scope.SweepOrphans | daemon/internal/engine/engine.go:82-123 | No indexed path and no folder above one is removed, even by a sweep that fails; after a complete one only those and temporary names are left. |
| Scope.KeepSet | daemon/internal/engine/engine.go:87-97 | The keep set is the indexed paths and all folders above them. |
| Scope.Orphans | daemon/internal/engine/engine.go:98-114 | The orphans are all other entries without a temporary name. |
| Scope.ResetForScope | daemon/internal/engine/engine.go:66-77 | The new epoch is stored only when the folder is an exact mirror and the whole feed has been read; a failing reset keeps the old epoch; into an empty folder an undisturbed reset succeeds if and only if every entry that brings content brings what its node holds now. |
| Scope.SweptIsExact | daemon/internal/engine/engine.go:79-123 | A folder that covers the server's tree, once swept, holds it exactly. |
| Scope.Syncer.SyncOnce | daemon/internal/syncer/syncer.go:33-49 | Over any passes no push happens under a differing epoch and none in a resetting pass; a pass that finds another epoch returns ok only with an exact mirror and that epoch stored, and into an empty folder, undisturbed, exactly if every entry is current. A followed pass pushes what a scan comes to and loses no file at any request; the push is complete if the pass returns ok, and also if it fails later, undisturbed until then, under an up-to-date index and with all ways free; with a taken way it stops there. A pass that returns ok, over the feed of foreign updates and its own requests, ends with the server's index, both sides of every conflict on the server, and folder and server in step if and only if Straight and Arrived hold; an undisturbed pass under an up-to-date index succeeds if all ways are free, and is in step if and only if Straight holds. |
| Scope.EditedIsStart | daemon/internal/engine/push.go:77-226 | Any edits of a client in step, short of file/folder swaps, and any foreign updates of files still there, give a state a pass is followed from. |
| Scope.InStepIsUpToDate | daemon/internal/engine/push.go:141-145 | A client in step has the server's version of every file. |
| RunLoop.NoWakeUpIsLost | daemon/internal/syncer/syncer.go:52-120 | In every state of every run an unserved notification has left a token or a debounce; the backoff is between 1 and 32 seconds. |
| RunLoop.SleepsDouble | daemon/internal/syncer/syncer.go:100-117 | After k failures in a row the next sleep is the smaller of 2^k and 32 seconds, in every state of every run. |
| RunLoop.EveryOwedPassStarts | daemon/internal/syncer/syncer.go:88-119 | On every fair interleaving each notification is followed by the start of a pass. |
| RunLoop.FailedPassIsRetried | daemon/internal/syncer/syncer.go:100-108 | A failed pass is followed by another. |
| RunLoop.FairRunsExist | daemon/internal/syncer/syncer.go:88-119 | There are fair runs, also such in which a pass fails. |
| RunLoop.Loop.Notify | daemon/internal/syncer/syncer.go:54-59 | A notification adds a token only to an empty channel. |
| RunLoop.Loop.OnTrigger | daemon/internal/syncer/syncer.go:92-96 | A token arms the debounce unless one is pending. |
| RunLoop.Loop.OnDebounce | daemon/internal/syncer/syncer.go:97-100 | The expired debounce starts a pass. |
| RunLoop.Loop.AfterPass | daemon/internal/syncer/syncer.go:100-117 | Success resets the backoff, failure leads to a sleep. |
| RunLoop.Loop.AfterSleep | daemon/internal/syncer/syncer.go:104-108 | After the sleep the backoff doubles below 30 seconds and the loop notifies itself. |
| EncryptTree.EncryptTree | daemon/internal/vault/encrypt.go:20-22 | Written into a vault without a d folder, any finite tree is represented, folder by folder, under pairwise different ids, each of which is in the id file of its own directory; nothing outside d changes. |
| EncryptTree.EncryptDir | daemon/internal/vault/encrypt.go:25-109 | A folder and everything below it are stored, and no other storage directory changes. |
| EncryptTree.EncryptSubfolder | daemon/internal/vault/encrypt.go:66-98 | A subfolder gets a new id, its wrapper and its own storage. |
| DecryptTree.DecryptTree | daemon/internal/vault/decrypt.go:13-15 | From a vault that represents a tree the output becomes what it was with that tree put over it, and it goes through if and only if no file meets a folder; over an empty folder the output is exactly the tree; from any vault whatever it ends, and returning ok means that no entry reached was broken, that every content was in the format, that the output has at its path the bytes of such a content, and that nothing else has come to the output but folders. |
| DecryptTree.DecryptDir | daemon/internal/vault/decrypt.go:19-124 | From any vault, success means that everything reached was intact and only such contents have come to the output; from one that represents a tree the folder's subtree is put over what is there, nothing outside it is touched, and the recursion over directory ids ends. |
| DecryptTree.DecryptEntry | daemon/internal/vault/decrypt.go:36-120 | One storage entry becomes its child with all below, or is the id file. |
| DecryptTree.DecryptFile | daemon/internal/vault/decrypt.go:126-140 | Whatever the input, success means that it is in the format and the output file holds exactly its plaintext. |
| DecryptTree.DamagedIsNotIntact | daemon/internal/vault/decrypt.go:19-140 | A vault that represents a tree, but for one content that is not authentic any more, is not intact, so it is never unpacked with ok. |
| DecryptTree.ChildIsFound | daemon/internal/vault/decrypt.go:44-120 | Every stored child, short or long named, is recognised as what it is. |
| DecryptTree.RepresentsOne | daemon/internal/vault/decrypt.go:19-124 | A store represents at most one tree, under one assignment of ids. |
| VaultStore.IdIsReadBack | daemon/internal/vault/encrypt.go:36-38 | The id of every folder of a represented tree, after any of the operations, can be read back from its own storage directory, and no other folder's id file holds it. |
| VaultEntries.StoreFile | clients/DiscoKit/Sources/DiscoKit/Vault/VaultWrite.swift:51-64 | The file's entry is written whatever the length of its name; over a folder the entry stays the folder's, and the call fails if the name is short and otherwise only over a folder where the contents go. |
| VaultEntries.StoreFolder | clients/DiscoKit/Sources/DiscoKit/Vault/VaultWrite.swift:67-81 | The entry becomes the folder's whatever it was, except over a file with a short name, where nothing changes. |
| VaultEntries.MakeStorage | clients/DiscoKit/Sources/DiscoKit/Vault/VaultWrite.swift:82-86 | A new storage directory with its id file, which decrypts to its own id, and nothing else. |
| VaultIO.EncryptBytes | daemon/internal/vault/encrypt.go:112-120 | What is encrypted decrypts to the same bytes. |
| VaultIO.Store.WriteFile | daemon/internal/vault/osio.go:37-43 | Writing changes one file at most, makes the folder above, and leaves a folder of that name alone. |
| VaultIO.Store.Remove | daemon/internal/vault/osio.go:45-47 | Removing changes nothing outside the subtree, also when it stops half-way. |
| Names.NameRoundTrip | daemon/internal/vault/name.go:176-213 | A name decrypts to itself, in the padded and in the unpadded spelling. |
| Names.EntriesDiffer | daemon/internal/vault/name.go:176-190 | Different names of a directory have different entries. |
| Names.EntryShape | daemon/internal/vault/name.go:176-190 | An entry ends in .c9r or .c9s according to its length and is never the id file. |
| Names.WhenShortened | daemon/internal/vault/encrypt.go:54-57 | A name is shortened exactly when it has more than 146 bytes. |
| Names.StoresDiffer | daemon/internal/vault/name.go:217-232 | Different directory ids have storage directories outside one another. |
| Base64.RoundTrip | daemon/internal/vault/name.go:176-182 | Padded base64url decodes to what was encoded. |
| Base64.FlexRoundTrip | daemon/internal/vault/name.go:235-243 | The flexible decoder reads both spellings. |
| Base64.EncodeLength | daemon/internal/vault/name.go:176-182 | The encoding of n bytes has 4 * ceil(n / 3) characters. |
| Crypto.SivRoundTrip | daemon/internal/vault/name.go:26-83 | SIV decryption undoes encryption and adds sixteen bytes. |
| Crypto.SivAcceptsOnlyItsOwn | daemon/internal/vault/name.go:26-59 | Whatever SIV decryption accepts is the encryption of its result. |
| Siv.Dbl16 | daemon/internal/vault/name.go:137-149 | The shifting loop multiplies by x in the field of 2^128 elements. |
| Siv.Xor16 | daemon/internal/vault/name.go:152-158 | Bytewise exclusive or. |
| Siv.S2vCmac | daemon/internal/vault/name.go:91-134 | The tag is S2V of section 2.4 of RFC 5297, over one string or two, empty associated data counting as a string. |
| Siv.Pad | daemon/internal/vault/name.go:124-127 | A short last string gets one 0x80 and zeros up to a block. |
| Siv.XorEnd | daemon/internal/vault/name.go:114-122 | D is combined with the last sixteen bytes only. |
| Siv.SubtleEqual | daemon/internal/vault/name.go:161-170 | The accumulated comparison is equality. |
| Siv.SivSeal | daemon/internal/vault/name.go:62-83 | The code computes SIV encryption for the S2V built on CMAC. |
| Siv.SivOpen | daemon/internal/vault/name.go:26-59 | The code computes SIV decryption. |
| Content.EncryptContent | daemon/internal/vault/content.go:27-110 | What is read, of any length, is written in the format. |
| Content.DecryptContent | daemon/internal/vault/content.go:114-202 | It succeeds exactly on contents in the format and writes what they hold. |
| Content.ContentRoundTrip | daemon/internal/vault/content.go:27-202 | Contents of every length survive, empty ones and whole multiples of the chunk included. |
| Content.CiphertextLength | daemon/internal/vault/content.go:27-110 | The length is 68 + size + 28 * ceil(size / 32768). |
| Content.OnlyTheOriginalOrderOpens | daemon/internal/vault/content.go:114-202 | Frames reordered, repeated or left out before another are refused, also a short last frame in the place of another. |
| Content.EncryptInMemory | clients/DiscoKit/Sources/DiscoKit/Vault/VaultContent.swift:10-30 | For the same random bytes it gives what the streaming form writes. |
| Content.DecryptInMemory | clients/DiscoKit/Sources/DiscoKit/Vault/VaultContent.swift:32-54 | It accepts the same contents as the streaming form and returns the same bytes. |
| Lazy.WriteFile | daemon/internal/vault/lazy.go:145-172 | The plain tree has the file with the given bytes; over a folder nothing changes in it, although success is reported if and only if the name is long and no folder is where the contents go. |
| Lazy.MakeDir | daemon/internal/vault/lazy.go:177-222 | The plain tree has an empty folder with a new id in the place of whatever had the name; over a file with a short name nothing changes. |
| Lazy.UnusedIsAdded | daemon/internal/vault/lazy.go:177-222 | Under an unused name the new folder is the only change. |
| Lazy.Remove | daemon/internal/vault/lazy.go:228-242 | The plain tree loses the name with all below it; a name that is not there is no error. |
| Lazy.ListDir | daemon/internal/vault/lazy.go:41-128 | Of any directory the listing has every entry that is not passed over, once, and nothing else, and on a store that works it succeeds if and only if none is broken; of a represented folder it has every child exactly once, with its id or its contents' path, and nothing else. |
| Lazy.ReadFile | daemon/internal/vault/lazy.go:131-141 | A read gives the bytes the path encrypts. |
| LazySession.Session.Write | daemon/internal/vault/lazy.go:145-172 | In any sequence of calls a write updates the plain tree and keeps the vault in step with it; refused by a store that works, it leaves both as they were. |
| LazySession.Session.MakeDir | daemon/internal/vault/lazy.go:177-222 | The same for a new folder, whose id no folder has. |
| LazySession.Session.Remove | daemon/internal/vault/lazy.go:228-242 | The same for a removal, which a store that works never refuses. |
| LazySession.Session.List | daemon/internal/vault/lazy.go:41-128 | After any sequence of calls the listing is the plain folder's. |
| LazySession.Session.Read | daemon/internal/vault/lazy.go:131-141 | After any sequence of calls a listed file reads as the last bytes written. |
| VaultWrite.ListEntries | clients/DiscoKit/Sources/DiscoKit/Vault/VaultTree.swift:29-59 | Of any directory each entry is listed, once and with its path, or passed over (a shortened one only if it has neither file or its files cannot be listed), and on a source that fails nowhere it succeeds if and only if each can be; of a represented folder only children are listed, and all of them when the source fails nowhere. |
| VaultWrite.Inspect | clients/DiscoKit/Sources/DiscoKit/Vault/VaultTree.swift:32-56 | What an entry is taken for, and exactly which entries it passes over and which it fails on. |
| VaultWrite.ListEntry | clients/DiscoKit/Sources/DiscoKit/Vault/VaultTree.swift:32-56 | What one turn of the loop lists, of any directory and of a represented one. |
| VaultWrite.DeleteEntry | clients/DiscoKit/Sources/DiscoKit/Vault/VaultWrite.swift:89-94 | The entry goes with all below it, no other directory's storage changes, and no storage of the removed folders is left on a source that fails nowhere. |
| VaultWrite.DeleteSubtreeStorage | clients/DiscoKit/Sources/DiscoKit/Vault/VaultWrite.swift:96-101 | The storage of exactly the folders of the subtree is removed. |
| VaultWrite.RenameEntry | clients/DiscoKit/Sources/DiscoKit/Vault/VaultWrite.swift:104-128 | To any other name: the subtree is represented under the new name with the same ids, in the place of what had it, and at every stop the entry is reachable under one of the two names; a file renamed to a folder's name is lost, and the call succeeds, if and only if the name is long and no folder is where the contents go; if the name is short nothing happens. |
| VaultWrite.EntryIsRenamed | clients/DiscoKit/Sources/DiscoKit/Vault/VaultWrite.swift:104-128 | A second wrapper with the same id, then the first removed, moves the whole subtree. |
| VaultWrite.EntryReplaces | clients/DiscoKit/Sources/DiscoKit/Vault/VaultWrite.swift:104-128 | Whatever had the new name makes way. |
| VaultWrite.RenamedToUnused | clients/DiscoKit/Sources/DiscoKit/Vault/VaultWrite.swift:104-128 | Under an unused name nothing has to make way: the subtree is moved and that is all. |
| VaultWrite.FileIsLost | clients/DiscoKit/Sources/DiscoKit/Vault/VaultWrite.swift:51-64 | Contents put beside a folder's id are not found, so the plain tree only loses the old name. |
| VaultManager.Manager.OpenUnlocked | daemon/internal/vaultmgr/vaultmgr.go:112-127 | What the vault represents is unpacked over what the plaintext folder holds, which goes through if and only if no file meets a folder; the keys are kept only once that is done; any other vault is opened only if nothing reached was broken or unauthentic. |
| VaultManager.Manager.Close | daemon/internal/vaultmgr/vaultmgr.go:131-163 | Wherever it stops, the plaintext is whole, or the vault represents it and a part of the plaintext is left, and while the plaintext is whole it can be tried again; nothing outside d is touched. |
| VaultManager.Manager.CloseAgain | daemon/internal/vaultmgr/vaultmgr.go:131-163 | In a state that a half-way wipe has left: the vault ends up with what is left of the plaintext, and has all that was there if and only if nothing had been wiped; when the folder itself is gone nothing happens. |
| VaultManager.Manager.CloseAndReopen | daemon/internal/vaultmgr/vaultmgr.go:112-163 | Closing and opening gives back what was there. |
| KeyWrap.AesKwWrap | daemon/internal/vault/keywrap.go:15-55 | The indexed double loop computes the shifting-register form of section 2.2.1 of RFC 3394. |
| KeyWrap.AesKwUnwrap | daemon/internal/vault/keywrap.go:59-101 | The indexed double loop computes the form of section 2.2.2 and checks the initial value. |
| KeyWrap.UnwrapUndoesWrap | daemon/internal/vault/keywrap.go:15-101 | For every key data of at least one block, for any invertible block cipher. |
| KeyWrap.WrapUndoesUnwrap | daemon/internal/vault/keywrap.go:59-101 | A successful unwrap wraps again to exactly its input. |
| KeyWrap.OneRound | daemon/internal/vault/keywrap.go:35-47 | One round in place is n register shifts. |
| KeyWrap.OneRoundBack | daemon/internal/vault/keywrap.go:78-89 | One round back in place undoes n register shifts. |
| Scrypt.BlockMixInto | clients/DiscoKit/Sources/DiscoKit/Vault/Scrypt.swift:70-81 | The flat loop computes scryptBlockMix of section 4 of RFC 7914. |
| Scrypt.DestIsSourceInverse | clients/DiscoKit/Sources/DiscoKit/Vault/Scrypt.swift:78-79 | Every output block is written exactly once. |
| Scrypt.RoMix | clients/DiscoKit/Sources/DiscoKit/Vault/Scrypt.swift:84-105 | For every cost the double-buffered, swapping code computes scryptROMix of section 5 with the low 64 bits for Integerify, and for one that divides 2^64 scryptROMix itself. |
| Scrypt.LowBitsSufficeIff | clients/DiscoKit/Sources/DiscoKit/Vault/Scrypt.swift:97-99 | The low 64 bits give Integerify modulo N for every block if and only if N divides 2^64. |
| Scrypt.PowersOfTwoDivide | clients/DiscoKit/Sources/DiscoKit/Vault/Scrypt.swift:97-99 | Every power of two up to 2^64 does. |
| Scrypt.LowWord | clients/DiscoKit/Sources/DiscoKit/Vault/Scrypt.swift:97-98 | Shifting eight bytes together gives their little-endian number. |
| Scrypt.Pbkdf2C1 | clients/DiscoKit/Sources/DiscoKit/Vault/Scrypt.swift:18-30 | The loop computes PBKDF2 with one iteration, cut to length. |
| Scrypt.Derive | clients/DiscoKit/Sources/DiscoKit/Vault/Scrypt.swift:6-15 | The same for the whole key: for a cost that divides 2^64 it is that of section 6 of RFC 7914. |
| Upload.Uploader.Upload | daemon/cmd/discodrive-wails/upload.go:40-79 | Success means the server assembled exactly the file, resumed or not, whatever was lost; no chunk is sent beyond the server's next. The requests made are in proper order: the chunk sent is the one the server named last, a failed one is followed by the question where to go on, the third failure in a row aborts, and nothing follows the end. It ends, and on a calm line it succeeds. |
| Upload.Uploader.SendChunk | daemon/cmd/discodrive-wails/upload.go:52-78 | One turn of the loop sends the chunk the server named last, keeps the order of requests, and comes closer to the end or to the third failure. |
| Upload.AllPartsAreTheFile | daemon/cmd/discodrive-wails/upload.go:52-79 | Chunks that are each the file's and cover its length assemble to the file. |
| ContentCache.Controller.Refresh | daemon/internal/desktop/controller.go:66-117 | It ends against any server, having asked for page after page until one does not go on; cache and cursor become what the pages handed out make of them: a node's row is that of the last entry about it, a deleted one has none, no copy is made, and one older than that entry is stale; if every entry was orderly when its turn came, a right cache stays right and every copy left has the bytes it had. |
| ContentCache.Controller.ApplyChange | daemon/internal/desktop/controller.go:78-101 | One entry changes its row and at most its own copy, which goes or follows as CacheAfter says, and keeps the cache right. |
| ContentCache.StayingKeepsCopy | daemon/internal/desktop/controller.go:78-101 | Over any sequence of entries a node that is neither deleted nor moved keeps its copy. |
| ContentCache.LastEntryDecides | daemon/internal/desktop/controller.go:78-101 | After any sequence of entries, whatever came before: the row of a node is that of its last entry, or gone with it, a node without an entry is as it was, and a copy is fresh exactly if it was at least as new as that entry. |
| ContentCache.LastOfIs | daemon/internal/desktop/controller.go:78-101 | The last entry about a node is one about it with none about it after it. |
| ContentCache.RefreshKeepsBytes | daemon/internal/desktop/controller.go:78-101 | Over any orderly entries a right cache stays right and no copy's bytes change, wherever it moves. |
| ContentCache.SharedPathMixesCopies | daemon/internal/desktop/controller.go:88-99 | An input that shows why no other indexed node may have an entry's path, with a copy or without: a fresh-looking copy gets another node's bytes. |
| ContentCache.Controller.Fetch | daemon/internal/desktop/controller.go:136-169 | A record is written only after a complete download; a download that breaks off leaves no fresh-looking record. |
| ContentCache.Controller.Open | daemon/internal/desktop/controller.go:173-186 | A fresh copy is returned without touching anything, any other downloaded and recorded as not pinned; a path returned is that of a copy that is not stale. |
| ContentCache.Controller.Pin | daemon/internal/desktop/controller.go:191-206 | A fresh copy is pinned without a download. |
| ContentCache.Controller.RemoveLocal | daemon/internal/desktop/controller.go:221-228 | The file goes, then the record; if the file cannot go, neither does. |
| ContentCache.Controller.ReconcileLocalRelPath | daemon/internal/desktop/controller.go:234-256 | The copy follows its node, with its record otherwise unchanged, when it can be renamed and is dropped otherwise; no other copy is touched. |
| ContentCache.Controller.Unpin | daemon/internal/desktop/controller.go:209-218 | Every indexed node gets a record of the current version, with an empty path if it had none. |
| ContentCache.UnpinIsRightIff | daemon/internal/desktop/controller.go:209-218 | For every contents the cache may have been right about, unpinning keeps it right if and only if there is a copy and it is not stale. |
| ContentCache.UnpinWithoutCopy | daemon/internal/desktop/controller.go:209-218 | Without a copy the record looks fresh and has no file. |
| ContentCache.StaleCopyExists | daemon/internal/desktop/controller.go:209-218 | A right cache with a stale copy that unpinning makes wrong. |

## Left out

- HTTP, JSON, server-sent events, tokens, SQLite: requests are method calls that may fail, tables are maps. Reading or writing an index row fails only where a stop is modelled.
- Symbolic links, file permissions, modification times and Windows path rules; paths are sequences of names.
- The folder does not change while a pass runs over it, apart from the pass itself; edits happen between passes.
- Order of directory walks and of map iteration: any order is allowed, so nothing depends on it. Errors of the sweep's walk, which the code ignores, are not modelled.
- Engine.Engine.PullOnce: the exact results assume the server's feed has one block per operation naming every live descendant, and no folder or file with a temporary or system name on the server.
- Scope.ResetForScope: its exact result assumes a feed that starts at the empty server; when it succeeds is stated for a folder that is empty, since over other contents it also depends on what files and folders are in the way.
- PushLocal.PushLocal: no file has become a folder or the other way round since the last pull, no folder on disk has a temporary or system name, and since then other clients have only updated files that are still there; foreign creates, moves and deletes before the push are not followed (only safety of the pass is claimed for them), nor are foreign updates of files moved locally; for those of files deleted locally see Cases.ForeignUpdateIsLost.
- Scope.Syncer.SyncOnce: the end result is for passes during which nobody else writes, so that the feed is that of the earlier foreign updates and of the push itself.
- AES, GCM, CMAC, SHA-1, SHA-256, HMAC and the Salsa20/8 core are abstract functions with stated laws; digests are taken to be free of collisions. No secrecy is claimed.
- Go's base64 decoder skips line breaks; that is not modelled. Names and ids are strings with an abstract, invertible conversion to bytes.
- DecryptTree.DecryptDir: on a vault whose directory ids form a cycle the code runs until the output path is too long for the file system; the model has that length as a parameter.
- Content.OnlyTheOriginalOrderOpens: a short last frame put before others runs into the next one; that this is refused rests on tags that cannot be forged, which is not among the stated laws.
- Lazy.Remove: storage of removed subfolders stays behind, as in the code; it is unreachable.
- VaultWrite.DeleteSubtreeStorage: needs a vault whose directory ids form a tree.
- Creating a vault, reading its configuration, JWT and recovery words.
- Scrypt.Pbkdf2C1: the 32-bit block counter overflows for keys of 2^32 - 1 blocks and more; shorter keys only.
- Upload.Uploader.Upload: a server that reports a smaller next chunk number than it has stored is not modelled; progress callbacks and modification times are left out.
- RunLoop.EveryOwedPassStarts: durations are not modelled, only that timers expire, sleeps end and passes return.
- ContentCache.Controller.Refresh: the orderly feed excludes entries for a path that any other indexed node has, cached or not, and versions that go back.
- The Android and iOS clients, the desktop vault upload, tray, windows and localisation.
