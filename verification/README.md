# Verified model of the file synchroniser

The synchroniser keeps each user's files equal on several devices and a server. Every side holds the files, a flat
metadata database (times, content hashes, deletion times) and a Merkle tree that indexes the database. A round
compares the two trees level by level, plans uploads, downloads and deletions, and carries the plan out with
chunked transfers over framed connections. This project models those parts in Dafny and proves what they promise.
`dafny verify dfyconfig.toml` checks all of it.

How the modules follow the program:

- `Common`, `Paths`, `Keys`: bytes, times, slash-separated paths as lists of names, database keys.
- `TreeView`, `TreeRuns`: the tree as a value (node by path), its hashes, whole histories of one tree, what equal
  hashes tell. `MerkleTrees` (MerkleTree.dfy): the mutable tree with parent pointers, every method specified by the value.
- `Index`, `FSMetadata`: one user's slice of the database, and the class over all users' keys and trees.
- `SyncCommon`, `HashDiff`, `Negotiation`, `NegotiationRun`, `TreePlan`: the shared classifier, the diff of two listings,
  one round of the tree negotiation, runs with edits between the messages, and the exact plan of an undisturbed run.
  `MerkleSync`: both handlers over mutable trees. `NaiveSync`, `Expansion`, `Equivalence`: the simple protocol, plans file by
  file, and when the two agree.
- `Replicas`, `LocalScan`, `Merge`, `Convergence`, `SyncRound`: one side's files and database, the scan before a round,
  carrying out any plan that fits the two sides in any order. `MerkleRound`, `NaiveRound`: the plans of the two
  negotiations fit, what they converge to, and the next round. `PlanHandlers`, `HandledRound`: the client and server
  handlers, and the way from the handler's loops to the end of the round.
- `Assembly`, `Storage`: write sessions of the two storage backends. `ChunkMath`, `Chunking`, `Transfer`, `UploadRun`,
  `DownloadRun`, `Connection`: chunk arithmetic, the four chunking handlers, single transfers under corruption and
  cancels, many transfers on one connection. `Delivery`: from a transfer's write commands to the stored file. `Framing`: the length-prefixed stream.
- `Scanner`, `Folding`: changes on disk and moves recognised by inode. `Sessions`, `SessionRun`: accounts and sessions.

The digest and the text encoding in front of it are parameters (`Hasher`); nothing is assumed of them except where a
statement says so. Credentials, tokens, clocks, the choice of session ids, the iteration order of hash maps, and which
handler of a progress signal cancels are parameters too. A path is the list of its names; `Paths` proves that the joined
string carries the same information.

## Where the code differs from what one would expect

Each of these is a theorem with its exact condition, not an assumption:

- A directory hash does not cover names. Renaming a file inside a directory leaves the root hash as it was, and the tree
  negotiation then plans nothing (`TreeRuns.RenameKeepsRootHash`, `Equivalence.RenameGoesUnseen`). `Equivalence.MerkleIsNaive`
  says exactly when the two negotiations agree, `MerkleRound.RoundConverges` exactly which files a round leaves different.
- Recording a file never clears its old tombstone (`Equivalence.RecordedAgain`). The simple negotiation plans such a path
  twice (`NaiveSync.NaiveTwice`) and does not come to rest (`NaiveRound.NaiveSecondRound`); without leftovers it converges
  (`NaiveRound.NaiveRoundConverges`). A tree built from maps with leftovers does not index them
  (`FSMetadata.BuiltAgrees`); the program builds a tree only before or with a user's first record, so it
  never gets there.
- The count of a file's parts is cut to 32 bits. Where it is zero, as for an empty file, the upload trips an assertion at
  the client (`UploadRun.UploadNeedsCount`) and the download never ends (`DownloadRun.UncountedNeverEnds`). A download of
  exactly 2^32 - 1 parts is written completely, but the client does not notice (`DownloadRun.DownloadOutcome`). So a round
  comes to its end if and only if no file it has to move has such a count (`HandledRound.FinishesExactly`). A file of more
  than 2^32 parts is otherwise cut short without notice (`Transfer.OverlongCut`): a round ends with exact copies if and
  only if every file it has to move has contents and countable parts (`HandledRound.FinishesWhole`).
- Cancelling a transfer between two deliveries trips an assertion (`UploadRun.CancelElsewhereTrips`,
  `DownloadRun.CancelElsewhereTrips`).
- One header value makes the frame parser spin, and no other does (`Framing.FrontShrinks`, `Framing.FrontSpins`,
  `Framing.EndlessSpins`).
- Two missing files with one inode: only one of them is reported (`Scanner.ScanFiles`).
- A second login on a bound connection, a logout with another session's token, or deleting another user's account from
  it leaves an active session nobody is bound to; its device is locked out until somebody logs that very session out or
  deletes the account (`SessionRun.OrphansExactly`, `SessionRun.LockedOut`).
- A user id with a slash shares keys with the users its beginnings name (`Keys.KeysMeet`); registration accepts it.

## Model

| member | source | states |
|---|---|---|
| `Paths.SplitJoin` | src/subsystems/filesystem/MerkleTree.cpp:129 | splitting a path string at slashes gives back the names it was joined from, so tree walks and database keys speak of the same path |
| `Paths.StartsWithIsBelow` | src/client/FileClient.cpp:510 | the string test "starts with the directory and a slash" holds exactly for paths strictly below the directory |
| `Paths.KeysApart` | src/subsystems/fs_metadata/FSMetadata.cpp:8-13 | a key starts with a user's prefix exactly if it is that user's, for user ids without slashes |
| `Paths.KeyInjective` | src/subsystems/fs_metadata/FSMetadata.cpp:4-6 | equal keys mean equal user and equal path |
| `Keys.KeysMeet` | src/subsystems/fs_metadata/FSMetadata.cpp:4-13 | two user ids share keys if and only if they are equal or one continues the other behind a slash: exactly what an id with a slash can do to other users |
| `TreeView.StoredIsRehash` | src/subsystems/filesystem/MerkleTree.cpp:115-121 | where every exposed node's hash agrees with its children's stored hashes, every exposed stored hash is the from-scratch hash of its whole subtree |
| `TreeView.RehashIsStored` | src/subsystems/filesystem/MerkleTree.cpp:97-113 | conversely stored hashes that are from-scratch hashes everywhere are right level by level |
| `TreeView.AddKeepsHashes` | src/subsystems/filesystem/MerkleTree.cpp:182-238 | adding or updating a file, with directories created and tombstones revived on the way, keeps every exposed hash right |
| `TreeView.AddHere` | src/subsystems/filesystem/MerkleTree.cpp:199-234 | what the added path holds afterwards, field by field: a live file with the time and hash given, an unset deletion time unless it was live before, no children; or the old node with the new version |
| `TreeView.AddElsewhere` | src/subsystems/filesystem/MerkleTree.cpp:190-236 | adding changes no other node but hashes and child lists above the path, and creates live directories there only |
| `TreeView.AddAbove` | src/subsystems/filesystem/MerkleTree.cpp:190-215 | above the added path every directory lists the next name on the way, as its last child where it is new, and the directories created carry the file's time |
| `TreeView.DeleteKeepsHashes` | src/subsystems/filesystem/MerkleTree.cpp:123-165 | deleting keeps every exposed hash right |
| `TreeView.DeleteHere` | src/subsystems/filesystem/MerkleTree.cpp:160-162 | a deleted node and all below it are tombstones with the deletion time; the node has the hash of "tombstone" and its path, those below keep the hash they had |
| `TreeView.DeleteElsewhere` | src/subsystems/filesystem/MerkleTree.cpp:249-280 | deleting changes what lies at and below the path and hashes above it, nothing else |
| `TreeView.EmptyOnlyRecorded` | src/subsystems/filesystem/MerkleTree.cpp:249-263 | where no digest is empty, rehashing gives no empty hash if and only if no live file it reaches was recorded with one |
| `TreeRuns.IncrementalIsFull` | src/subsystems/filesystem/MerkleTree.cpp:123-280 | after any history of additions, updates and file deletions every stored hash is the from-scratch hash of its subtree, and only files are tombstones |
| `TreeRuns.EqualHashEqualBelow` | src/subsystems/filesystem/MerkleTree.cpp:115-121 | with equal names and no collision at hand equal hashes at a directory mean equal hashes at every path below |
| `TreeRuns.RootHashDecides` | src/subsystems/sync_protocol/server/MerkleSyncServer.cpp:30-35 | under the same hypotheses the root hashes agree if and only if the hashes agree at every path |
| `TreeRuns.RenameKeepsRootHash` | src/subsystems/filesystem/MerkleTree.cpp:115-121 | two trees with differently named files and one root hash, for any digest |
| `MerkleTrees.MerkleTree.constructor` | src/subsystems/filesystem/MerkleTree.cpp:50-56 | a new tree is the root alone with the hash of no children |
| `MerkleTrees.MerkleTree.HashChildren` | src/subsystems/filesystem/MerkleTree.cpp:115-121 | the digest of the children's stored hashes one after another in insertion order, read off the child pointers |
| `MerkleTrees.MerkleTree.VerifyHashes` | src/subsystems/filesystem/MerkleTree.cpp:95-113 | the check looks at the root's own level only |
| `MerkleTrees.MerkleTree.Find` | src/subsystems/filesystem/FileTree.cpp:7-28 | finds exactly the node at the path, tombstoned or not |
| `MerkleTrees.MerkleTree.GetChildHashes` | src/subsystems/filesystem/MerkleTree.cpp:81-93 | the paths and stored hashes of the children in insertion order, nothing for an unknown path |
| `MerkleTrees.MerkleTree.PropagateHashUpward` | src/subsystems/filesystem/MerkleTree.cpp:271-280 | in place: recomputes exactly the directories above the node, deepest first |
| `MerkleTrees.MerkleTree.PropagateHashDownward` | src/subsystems/filesystem/MerkleTree.cpp:249-263 | in place: gives every node below, down to the first tombstone on each way, its from-scratch hash; the returned flag tells whether the assertion that no hash is empty held all the way |
| `MerkleTrees.MerkleTree.MarkTombstoneRecursively` | src/subsystems/filesystem/FileTree.cpp:41-47 | in place: exactly the nodes at and below the path become tombstones with the time |
| `MerkleTrees.MerkleTree.GetRelativePath` | src/subsystems/filesystem/FileTree.cpp:61-69 | the parent pointers spell the path the node lies at |
| `MerkleTrees.MerkleTree.AddFile` | src/subsystems/filesystem/MerkleTree.cpp:182-238 | in place: the heap tree keeps its shape and its value becomes that of the addition |
| `MerkleTrees.MerkleTree.DeleteFile` | src/subsystems/filesystem/MerkleTree.cpp:123-165 | in place: true exactly for a known path, and the value becomes that of the deletion; nothing changes otherwise; a second result tells whether the assertions on the repaired hashes held |
| `Index.RecordAgrees` | src/subsystems/fs_metadata/FSMetadata.cpp:63-76 | recording a file or a deletion keeps maps and tree in agreement: live files are the tracked ones with their times and hashes, tombstones carry the recorded times |
| `Index.RunDb` | src/subsystems/fs_metadata/FSMetadata.cpp:63-76 | the agreement holds after any history |
| `FSMetadata.BuiltAgrees` | src/subsystems/fs_metadata/FSMetadata.cpp:78-103 | a tree built from the maps indexes them if and only if no tracked file has a leftover tombstone |
| `FSMetadata.FSMetadata.BuildMerkleTreeFromDb` | src/subsystems/fs_metadata/FSMetadata.cpp:78-103 | building from the flat maps in any iteration order gives a tree that indexes the maps less the tombstoned files; the final check passes |
| `FSMetadata.FSMetadata.GetUserTree` | src/subsystems/fs_metadata/FSMetadata.cpp:105-116 | the user's tree, built once, indexes what the user has recorded; the database stays valid, and nobody's records or existing trees change |
| `FSMetadata.FSMetadata.RecordFile` | src/subsystems/fs_metadata/FSMetadata.cpp:63-68 | both maps and the tree take the file, all users' trees keep indexing their maps, other users' records stay; for a user whose tree exists the record and the tree make exactly the step `Index` specifies |
| `FSMetadata.FSMetadata.RecordDeletion` | src/subsystems/fs_metadata/FSMetadata.cpp:70-76 | the file is untracked, its hash dropped, its deletion remembered, tombstoned in the tree; other users' records stay; for a user whose tree exists exactly the step `Index` specifies |
| `FSMetadata.FSMetadata.MarkDeleted` | src/subsystems/fs_metadata/FSMetadata.cpp:54-61 | for any id and path untracks exactly that key and stores its tombstone; for an id without slashes and a path in canonical form exactly that user's record changes |
| `FSMetadata.FSMetadata.TreeAgreesWithMaps` | src/subsystems/fs_metadata/FSMetadata.cpp:63-76 | key by key: live in the user's tree exactly when tracked under the user's key, with the same time and hash, and `hashes` and `fileMtimes` have the same keys |
| `FSMetadata.FSMetadata.AllTrackedFiles` | src/subsystems/fs_metadata/FSMetadata.cpp:37-46 | for any id exactly the strings whose keys are in the shared map, with their values; for an id without slashes exactly the paths that user has recorded |
| `FSMetadata.FSMetadata.AllTombstones` | src/subsystems/fs_metadata/FSMetadata.cpp:127-136 | for any id exactly the strings whose keys have tombstones, with their times; for an id without slashes exactly the deletions that user has recorded |
| `FSMetadata.FSMetadata.ReadMtime` | src/subsystems/fs_metadata/FSMetadata.cpp:16-22 | the time the user has recorded for the path, and none for any string that is not the joined form of a recorded path |
| `SyncCommon.ClassifyMirrors` | src/subsystems/sync_protocol/SyncCommon.cpp:12-70 | swapping the sides mirrors the verdict if and only if it is not a tie between two differing live files, which the server wins from either end |
| `SyncCommon.ClassifiedMeans` | src/subsystems/sync_protocol/SyncCommon.cpp:12-70 | bucket by bucket when a verdict falls and which side's time goes along: a side wins with the later version, a deletion only if strictly later, two live files of one age go to the server, an equal hash tells only if not empty |
| `HashDiff.SymmetricHashDiff` | src/subsystems/filesystem/MerkleTree.cpp:8-48 | the three loops compute the three lists of the diff, empty hashes counting as missing; on distinct paths each list holds exactly its paths, once and in order |
| `HashDiff.DiffExact` | src/subsystems/filesystem/MerkleTree.cpp:7-48 | the lists together name every path that is listed once or with different hashes exactly once, and no other |
| `HashDiff.DiffLists` | src/subsystems/filesystem/MerkleTree.cpp:8-48 | list by list on distinct paths: only-left are the paths listed left and not right, or on both with different hashes and the right one empty; only-right the mirror image; modified those with different hashes, neither empty; each once, in the order of the listings |
| `Negotiation.EntriesFaithful` | src/subsystems/sync_protocol/server/MerkleSyncServer.cpp:11-28 | a listing tells the client exactly what a look into the server's tree would |
| `Negotiation.RoundExact` | src/subsystems/sync_protocol/client/MerkleSyncClient.cpp:28-129 | a reply adds to the plan exactly the differing children of its directories, each once with the right verdict |
| `NegotiationRun.EditGrows` | src/subsystems/filesystem/MerkleTree.cpp:123-238 | recording files and deletions never removes a node nor turns a file into a directory |
| `NegotiationRun.NegotiationIsSafe` | src/subsystems/sync_protocol/server/MerkleSyncServer.cpp:45-54 | with any edits on either side between the messages no lookup or directory assertion of either handler fails, and every path is in at most one bucket at most once |
| `TreePlan.PlanExact` | src/subsystems/sync_protocol/client/MerkleSyncClient.cpp:20-144 | an undisturbed negotiation plans exactly the differing children of directories live on both sides that no equal hash hides |
| `TreePlan.NegotiationCompletes` | src/subsystems/sync_protocol/client/MerkleSyncClient.cpp:130-143 | it is over after at most two messages for each level of the lower tree and two more |
| `TreePlan.PlanOnce` | src/subsystems/sync_protocol/client/MerkleSyncClient.cpp:86-121 | the finished plan mentions every path at most once and leaves no directory to check |
| `MerkleSync.MerkleSyncServer.ToEntries` | src/subsystems/sync_protocol/server/MerkleSyncServer.cpp:11-28 | the entries of a directory's children with time, type and tombstone |
| `MerkleSync.MerkleSyncServer.OnMessage` | src/subsystems/sync_protocol/server/MerkleSyncServer.cpp:7-60 | the handler over a heap tree makes exactly the protocol's server step in all phases |
| `MerkleSync.MerkleSyncClient.StartNegotiation` | src/subsystems/sync_protocol/client/MerkleSyncClient.cpp:10-18 | a fresh plan and the root hash |
| `MerkleSync.MerkleSyncClient.ProcessDirectory` | src/subsystems/sync_protocol/client/MerkleSyncClient.cpp:28-129 | one directory of a reply, diffed, classified and appended to the buckets |
| `MerkleSync.MerkleSyncClient.OnMessage` | src/subsystems/sync_protocol/client/MerkleSyncClient.cpp:20-144 | the handler makes exactly the protocol's client step: next request or finished plan |
| `MerkleSync.Negotiate` | src/subsystems/sync_protocol/client/MerkleSyncClient.cpp:10-144 | both handlers exchanging messages over two heap trees stop, and the client then holds the exact plan |
| `Expansion.ExpandedExact` | src/client/FileClient.cpp:506-523 | with directory entries expanded, exactly the files are planned that differ with no equal hash on the way to them |
| `NaiveSync.ListEverything` | src/subsystems/sync_protocol/server/NaiveSyncServer.cpp:12-27 | the listing tells every path's state, a tombstone before a tracked file, and mentions a path as often as it is recorded |
| `NaiveSync.NaiveSyncClient.ServerByPath` | src/subsystems/sync_protocol/client/NaiveSyncClient.cpp:15-26 | the last entry listed for every path |
| `NaiveSync.NaiveSyncClient.OnMessage` | src/subsystems/sync_protocol/client/NaiveSyncClient.cpp:12-95 | classifies every listed path and then every unlisted tracked file, each in turn |
| `NaiveSync.NaiveExact` | src/subsystems/sync_protocol/client/NaiveSyncClient.cpp:75-91 | the simple plan holds exactly the verdicts on the two databases |
| `NaiveSync.NaiveTwice` | src/subsystems/sync_protocol/client/NaiveSyncClient.cpp:76-81 | a path is planned twice if and only if the server tracks it and also remembers its deletion and something is to be done |
| `Equivalence.RecordedAgain` | src/subsystems/fs_metadata/FSMetadata.cpp:63-76 | a file recorded, deleted and recorded again keeps its tombstone; the simple negotiation then plans an older copy on the other side twice, and for deletion |
| `Equivalence.SameRecordInSync` | src/subsystems/sync_protocol/client/NaiveSyncClient.cpp:28-91 | the simple negotiation leaves a path alone if and only if neither side tracks it, or both track it without a leftover tombstone under one hash that is not empty |
| `Equivalence.MerkleIsNaive` | src/subsystems/sync_protocol/client/MerkleSyncClient.cpp:20-144 | both negotiations plan the same files with the same times if and only if no path whose two records differ lies at or below an equal hash and no leftover tombstone misleads the simple one |
| `Equivalence.TidyNoLeftovers` | src/subsystems/fs_metadata/FSMetadata.cpp:63-76 | histories that record a file before its deletion and never after it leave no leftover tombstone |
| `Equivalence.SoundHashesTell` | src/subsystems/filesystem/MerkleTree.cpp:115-121 | fixed-length collision-free hashes tell subtrees apart where equal hashes come with equal names |
| `Equivalence.MerkleIsNaiveOnTidyHistories` | src/subsystems/sync_protocol/client/MerkleSyncClient.cpp:20-144 | after tidy histories, with non-empty content hashes that tell subtrees apart, the two plans are the same file by file |
| `Equivalence.RenameGoesUnseen` | src/subsystems/sync_protocol/server/MerkleSyncServer.cpp:30-35 | a rename the tree negotiation does not see and the simple one plans as upload and download |
| `Replicas.StoreScanned` | src/client/FileClient.cpp:66-72 | storing a file keeps files, maps and tree in agreement, and every hash that of the contents if and only if the file comes with the hash of its contents |
| `LocalScan.ScanFilesystemForChanges` | src/client/FileClient.cpp:386-420 | exactly the untracked files, the files under another time and the vanished ones, each once, a vanished one with its recorded deletion time or the time of the scan |
| `LocalScan.ScanAndApply` | src/client/FileClient.cpp:407-447 | after a scan and its changes applied, files, maps and tree fit together; every recorded hash is that of the contents if and only if no file changed its contents and kept its time; a vanished file is remembered as deleted at its recorded deletion time or the time of the scan, every other tombstone is as before |
| `Merge.DecisionMeaning` | src/subsystems/sync_protocol/SyncCommon.cpp:12-70 | the side a verdict favours holds the later version, a tie going to the live file and to the server; where it favours none, or both hold the same, both do |
| `Merge.NoneOverlooked` | src/subsystems/sync_protocol/server/MerkleSyncServer.cpp:30-35 | where equal hashes mean equal contents no difference is overlooked |
| `MerkleRound.DueApart` | src/client/FileClient.cpp:557-593 | no two entries of a tree negotiation's plan are about nested paths |
| `Convergence.InvApply` | src/client/FileClient.cpp:539-611 | every step of carrying out any fitting plan, in any order, only brings the losing side of a path to what a transfer delivers of the winning contents |
| `SyncRound.NeverStuck` | src/server/FileServer.cpp:173-184 | whatever happens next finds the files, times, hashes and directories its handler expects, except a transfer exactly where its cut count of chunks is zero or, for a download, the largest 32-bit number; where no such file is to be moved there is no exception |
| `SyncRound.FinishedCarriable` | src/subsystems/chunking_protocol/client/ChunkingClient.cpp:73-74 | a round that came to its end had no file to move whose count is such |
| `SyncRound.PlanConverges` | src/client/FileClient.cpp:539-611 | for any fitting plan, file by file: both sides end with the merged version if and only if the plan left no difference out and no copy was cut short |
| `SyncRound.RecordsSettle` | src/client/FileClient.cpp:539-611 | after a finished round, path by path, what both databases record: the winner's time on both sides, a deletion won by the client at the server under the client's deletion time and the other way round, no record of any other path touched |
| `SyncRound.ClientRemembers` | src/client/FileClient.cpp:284-305 | while a deletion the client won is carried out the client keeps remembering it, under the time it had or a time the server acknowledged it with |
| `MerkleRound.MerkleFounded` | src/subsystems/sync_protocol/client/MerkleSyncClient.cpp:86-143 | the plan of a tree negotiation fits the two sides: right verdicts on files, one-sided directories, nothing nested |
| `MerkleRound.UnplannedHidden` | src/subsystems/sync_protocol/server/MerkleSyncServer.cpp:30-35 | it leaves a difference out if and only if an equal hash on the way hides it |
| `MerkleRound.RoundConverges` | src/client/FileClient.cpp:539-611 | file by file: when all work of a tree negotiation's plan is done both sides hold the merged version if and only if no equal hash hid a difference and no copy was cut short |
| `MerkleRound.RoundConvergesAll` | src/client/FileClient.cpp:539-611 | where equal hashes mean equal contents both sides end with the same files, the merged ones, if and only if no copy was cut short, and both are scanned then |
| `SyncRound.RunEnds` | src/client/FileClient.cpp:539-611 | every event, from any state, lowers a well-founded rank |
| `SyncRound.NoEndlessSchedule` | src/client/FileClient.cpp:539-611 | no schedule goes on for ever, from whatever state it starts |
| `MerkleRound.SecondRoundEmpty` | src/subsystems/sync_protocol/client/MerkleSyncClient.cpp:86-143 | once the files agree a new negotiation moves nothing, whatever the insertion orders and root hashes |
| `MerkleRound.NothingLeft` | src/client/FileClient.cpp:467-477 | after a finished round without cut copies, where equal hashes mean equal contents, the next negotiation's plan with its directories expanded is empty |
| `NaiveRound.NaiveSecondRound` | src/subsystems/sync_protocol/client/NaiveSyncClient.cpp:28-39 | the simple negotiation comes to rest if and only if the two sides' leftover tombstones match |
| `NaiveRound.NaiveFounded` | src/client/FileClient.cpp:119-122 | where no tombstone is left over the plan of a simple negotiation fits the two sides |
| `NaiveRound.NaiveRoundConverges` | src/client/FileClient.cpp:119-122 | carrying it out leaves both sides with the same files, the merged ones, if and only if no copy was cut short, where digests tell contents apart |
| `NaiveRound.TidyLeftoverless` | src/subsystems/fs_metadata/FSMetadata.cpp:63-76 | histories that record a file before its deletion and never after it leave no tombstone over |
| `PlanHandlers.FileClient.HandleNegotiationCompleted` | src/client/FileClient.cpp:539-602 | the loops over the six buckets stage every entry in order |
| `PlanHandlers.FileClient.StageDirectoryUpload` | src/client/FileClient.cpp:506-514 | uploads of exactly the local files below the directory |
| `PlanHandlers.FileClient.StageDeleteFor` | src/client/FileClient.cpp:525-537 | a request, and the local tree tombstoned at once |
| `PlanHandlers.FileClient.ApplyTombstone` | src/client/FileClient.cpp:604-611 | removes and records the deletion only of a file that exists locally |
| `PlanHandlers.FileClient.HandleMerkleDirectoryListing` | src/client/FileClient.cpp:236-253 | the loop over the entries is the round's step of a listing that came back: downloads of all files listed, tombstones applied in order, the request done |
| `PlanHandlers.FileClient.OnDownloadCompleted` | src/client/FileClient.cpp:66-72 | the file kept under the server's time and hash; with what a transfer delivers of the server's file this is the round's step of a finished download |
| `PlanHandlers.FileClient.HandleDeleteResponse` | src/client/FileClient.cpp:284-305 | an acknowledged deletion is the round's step: recorded under whatever time the reply carries, no other record touched; after an error nothing is recorded |
| `PlanHandlers.FileServer.HandleDeleteRequest` | src/server/FileServer.cpp:298-327 | the round's step of a deletion at the server: a tracked file is deleted without comparing times, an unknown path counts as done, and exactly a tracked path without a file is an error without effect |
| `PlanHandlers.FileServer.HandleListRequest` | src/server/FileServer.cpp:356-389 | exactly the tracked files and tombstones below the directory, or all of them, each once with its time: the listing the round expects |
| `PlanHandlers.FileServer.OnUploadCompleted` | src/server/FileServer.cpp:135-145 | the uploaded file kept under the announced time and hash; with what a transfer delivers of the client's file this is the round's step of a finished upload |
| `HandledRound.LoopsAreRun` | src/client/FileClient.cpp:557-593 | the handler's loops over a plan that mentions no path twice are one schedule of the round |
| `HandledRound.RoundFinishes` | src/client/FileClient.cpp:539-611 | where no file to be moved has a count of zero or, for a download, the largest one, every run can be carried to its end |
| `HandledRound.FinishesExactly` | src/subsystems/chunking_protocol/client/ChunkingClient.cpp:73-74 | a round comes to its end if and only if no file it decides to move has such a count |
| `HandledRound.FinishesWhole` | src/subsystems/chunking_protocol/client/ChunkingClient.cpp:66-187 | it can come to its end, and with every transfer an exact copy, if and only if every file it decides to move has contents and at most 2^32 - 1 chunks, for a download one less |
| `HandledRound.HandledRoundConverges` | src/client/FileClient.cpp:539-611 | after the handler went through a tree negotiation's plan, any order of finishing the work leaves both sides with the merged files, if and only if no copy was cut short |
| `HandledRound.HandledNaiveConverges` | src/client/FileClient.cpp:539-602 | the same after the plan of a simple negotiation, where no tombstone is left over |
| `Assembly.AssembliesAgree` | src/subsystems/storage/S3FileStorage.cpp:240-251 | seeking and writing parts as they arrive gives the same bytes as sorting them by number and concatenating, for parts 1..k in any order |
| `Assembly.WriteAtBytes` | src/subsystems/storage/LocalFileStorage.cpp:191-203 | byte by byte: what is written stands at its offset, what was there stays elsewhere, a gap is zeros, writing nothing changes nothing |
| `Storage.LocalFileStorage.BeginWrite` | src/subsystems/storage/LocalFileStorage.cpp:172-189 | an empty session beside the visible file, nothing else changed |
| `Storage.LocalFileStorage.WriteRange` | src/subsystems/storage/LocalFileStorage.cpp:191-203 | overwrites from the offset on, zeros in a gap, the visible file untouched |
| `Storage.LocalFileStorage.FinishWrite` | src/subsystems/storage/LocalFileStorage.cpp:205-214 | the session becomes the visible file and is closed |
| `Storage.LocalFileStorage.AbortWrite` | src/subsystems/storage/LocalFileStorage.cpp:216-225 | the session is gone, the visible file untouched |
| `Storage.LocalFileStorage.ReadRange` | src/subsystems/storage/LocalFileStorage.cpp:143-165 | as many bytes as asked for and there are, each the file's byte at its offset; fails exactly for an unknown file of which something is asked |
| `Storage.S3FileStorage.BeginWrite` | src/subsystems/storage/S3FileStorage.cpp:181-202 | an empty part list beside the visible object, nothing else changed |
| `Storage.S3FileStorage.WriteRange` | src/subsystems/storage/S3FileStorage.cpp:204-232 | the part appended in order of arrival |
| `Storage.S3FileStorage.FinishWrite` | src/subsystems/storage/S3FileStorage.cpp:234-260 | sorts the parts by number and publishes their concatenation |
| `Storage.S3FileStorage.AbortWrite` | src/subsystems/storage/S3FileStorage.cpp:262-281 | the parts are gone, the visible object untouched |
| `Storage.BackendsAgree` | src/subsystems/storage/S3FileStorage.cpp:204-281 | over any run of interleaved sessions both backends show the same files after every call |
| `Storage.NothingVisible` | src/subsystems/storage/LocalFileStorage.cpp:172-225 | without a finish of its session no file changes on either backend |
| `ChunkMath.TotalTiles` | src/subsystems/chunking_protocol/server/ChunkingServer.cpp:65-66 | the 64-bit sum cut to 32 bits counts the parts correctly if and only if neither sum nor count overflows |
| `ChunkMath.OffsetExact` | src/subsystems/chunking_protocol/server/ChunkingServer.cpp:159-160 | whatever overflows in the count, no offset of a counted part does, and every counted part has something of the file |
| `ChunkMath.PartFollows` | src/subsystems/chunking_protocol/server/ChunkingServer.cpp:123-126 | part n continues where parts 1..n-1 end and is never empty |
| `Transfer.Carried` | src/subsystems/chunking_protocol/server/ChunkingServer.cpp:65-66 | in chunks of 5 MiB: a transfer has parts to send if and only if the cut count is not zero, it delivers the counted parts, and they are the file if and only if the file has contents and at most 2^32 - 1 chunks |
| `Transfer.DeliveredWhole` | src/subsystems/chunking_protocol/server/ChunkingServer.cpp:65-66 | for every chunk size: the counted parts are always a non-empty beginning of the file, and the whole of it if and only if neither sum nor count overflows |
| `Transfer.WholeCopies` | src/subsystems/chunking_protocol/server/ChunkingServer.cpp:95-96 | an upload comes to an end with the whole file if and only if the file has between 1 byte and 2^32 - 1 chunks of 5 MiB (22517998131609600 bytes), a download with one chunk less |
| `Transfer.OverlongCut` | src/subsystems/chunking_protocol/server/ChunkingServer.cpp:65-66 | of a file with 2^32 + k chunks exactly k are counted: the transfer comes to an end with a copy cut short, or trips where k is zero |
| `Transfer.EmptyUncounted` | src/subsystems/chunking_protocol/server/ChunkingServer.cpp:65-66 | an empty file has no part to count |
| `Chunking.ChunkingClient.StartUpload` | src/subsystems/chunking_protocol/client/ChunkingClient.cpp:39-52 | a new upload state and the request; other paths untouched |
| `Chunking.ChunkingClient.StartDownload` | src/subsystems/chunking_protocol/client/ChunkingClient.cpp:54-64 | a new download state and the request; other paths untouched |
| `Chunking.ChunkingClient.HandleUploadSizeReceived` | src/subsystems/chunking_protocol/client/ChunkingClient.cpp:66-79 | the sizes stored and the current part sent; other paths untouched |
| `Chunking.ChunkingClient.HandleAckChunkOfUpload` | src/subsystems/chunking_protocol/client/ChunkingClient.cpp:102-136 | resend, completion, or progress and then the next part unless the progress handler cancelled; other paths untouched |
| `Chunking.ChunkingClient.HandleDownloadSizeReceived` | src/subsystems/chunking_protocol/client/ChunkingClient.cpp:138-145 | the sizes stored; other paths untouched |
| `Chunking.ChunkingClient.HandleChunkReceived` | src/subsystems/chunking_protocol/client/ChunkingClient.cpp:147-187 | refusal of a damaged chunk, or write, progress or completion, and acknowledgement; other paths untouched |
| `Chunking.ChunkingClient.CancelUpload` | src/subsystems/chunking_protocol/client/ChunkingClient.cpp:189-197 | the state forgotten and the cancel sent |
| `Chunking.ChunkingClient.CancelDownload` | src/subsystems/chunking_protocol/client/ChunkingClient.cpp:199-208 | the state forgotten and the cancel sent, or nothing without an active download |
| `Chunking.ChunkingClient.OnMessage` | src/subsystems/chunking_protocol/client/ChunkingClient.cpp:8-29 | dispatch by message type, everything else ignored |
| `Chunking.ChunkingServer.HandleRequestChunkSizeForUpload` | src/subsystems/chunking_protocol/server/ChunkingServer.cpp:55-80 | the upload opened with the computed count; other keys untouched |
| `Chunking.ChunkingServer.HandleRequestChunkSizeForDownload` | src/subsystems/chunking_protocol/server/ChunkingServer.cpp:82-114 | the download opened, the sizes and part 1 sent; other keys untouched |
| `Chunking.ChunkingServer.HandleChunkReceived` | src/subsystems/chunking_protocol/server/ChunkingServer.cpp:141-182 | refusal, or the part handed on to write under its number and acknowledged, with the state dropped at the last part; other keys untouched |
| `Chunking.ChunkingServer.HandleAckChunkOfDownload` | src/subsystems/chunking_protocol/server/ChunkingServer.cpp:184-211 | resend, completion or next part; other keys untouched |
| `Chunking.ChunkingServer.HandleCancelReceived` | src/subsystems/chunking_protocol/server/ChunkingServer.cpp:213-230 | the upload of that client and path dropped, the download where there is no upload, and the signal for it; nothing else changed, its final assertion never reached when one exists |
| `Chunking.ChunkingServer.OnMessage` | src/subsystems/chunking_protocol/server/ChunkingServer.cpp:8-41 | dispatch by message type, everything else ignored |
| `UploadRun.UploadNeverFails` | src/subsystems/chunking_protocol/client/ChunkingClient.cpp:66-136 | for every file with a count of parts that is not zero: no assertion of either side fails at any point of any run with corruptions and progress cancels |
| `UploadRun.UploadExact` | src/subsystems/chunking_protocol/server/ChunkingServer.cpp:141-182 | the write commands are always exactly those of parts 1, 2, ... in order, the k-th one numbered k, at offset (k - 1) * chunk, with the file's k-th bytes; the server's completion comes with the last of them, the client's later and with nothing left on either side; they are the whole file if and only if no count overflows |
| `UploadRun.UploadSignals` | src/subsystems/chunking_protocol/client/ChunkingClient.cpp:114-136 | the client reports each part confirmed once and in order, then completion or cancel as the last signal; the server the start with size and chunk, then the same end |
| `UploadRun.UploadEnds` | src/subsystems/chunking_protocol/client/ChunkingClient.cpp:102-136 | a run has at most 2 parts + 2 + 3 corruptions steps |
| `UploadRun.UploadOutcome` | src/subsystems/chunking_protocol/server/ChunkingServer.cpp:169-181 | at rest the upload is complete on both sides, or cancelled and forgotten on both; complete means all counted parts, the whole file if and only if no count overflows |
| `UploadRun.UploadNeedsCount` | src/subsystems/chunking_protocol/client/ChunkingClient.cpp:73-74 | the client's size assertion holds if and only if the count of parts, cut to 32 bits, is not zero; for an empty file it is |
| `UploadRun.CancelElsewhereTrips` | src/subsystems/chunking_protocol/client/ChunkingClient.cpp:189-197 | a cancel between two deliveries makes a later client assertion fail |
| `DownloadRun.DownloadNeverFails` | src/subsystems/chunking_protocol/client/ChunkingClient.cpp:138-187 | for every file with a count of parts that is not zero: no assertion of either side fails at any point of any run |
| `DownloadRun.DownloadExact` | src/subsystems/chunking_protocol/client/ChunkingClient.cpp:147-187 | the write commands are always exactly those of the first parts in order, at their offsets with the file's bytes; completion on either side means all counted parts, the whole file if and only if no count overflows |
| `DownloadRun.DownloadSignals` | src/subsystems/chunking_protocol/client/ChunkingClient.cpp:161-187 | the client reports each part written once and in order, then completion in place of the last report, or the cancel after the report it came at; the server the end alone |
| `DownloadRun.DownloadEnds` | src/subsystems/chunking_protocol/server/ChunkingServer.cpp:184-211 | a run has at most 2 parts + 2 + 3 corruptions steps |
| `DownloadRun.DownloadOutcome` | src/subsystems/chunking_protocol/client/ChunkingClient.cpp:161-176 | without a cancel all counted parts arrive and the server closes; they are the whole file if and only if no count overflows; the client closes too if and only if the number after the last part does not overflow |
| `DownloadRun.DownloadCancelClean` | src/subsystems/chunking_protocol/client/ChunkingClient.cpp:178-183 | after a cancel at a progress signal only the cancel message is left, and after it nothing on either side |
| `DownloadRun.CancelElsewhereTrips` | src/subsystems/chunking_protocol/client/ChunkingClient.cpp:199-208 | a cancel between two deliveries makes a later client assertion fail, or the server's when the server sends nothing any more |
| `DownloadRun.UncountedNeverEnds` | src/subsystems/chunking_protocol/ChunkingProtocolMessages.cpp:3-5 | a download whose count of parts is zero never stops and never completes |
| `Delivery.UploadFits` | src/subsystems/file_transfer/server/FileTransferServer.cpp:75-116 | whatever call an upload makes next, with any other sessions in between, finds its session as the backend asserts and is such that the backends agree on it: part k at the offset of its number, finished only with all parts there |
| `Delivery.UploadStored` | src/subsystems/storage/S3FileStorage.cpp:204-260 | a completed upload has written the parts under their numbers, and once its session is finished both backends show what the transfer delivered, which is the client's file if and only if no count overflows |
| `Delivery.DownloadStored` | src/subsystems/file_transfer/client/FileTransferClient.cpp:44-64 | a completed download, once committed, leaves in the client's directory what the transfer delivered, the server's file if and only if no count overflows |
| `Connection.ConnectionNeverFails` | src/subsystems/chunking_protocol/server/ChunkingServer.cpp:213-230 | any number of transfers on one connection, begun, damaged, cancelled at progress and begun again: no handler assertion fails |
| `Connection.OthersUndisturbed` | src/subsystems/chunking_protocol/server/ChunkingServer.cpp:8-41 | an event of one path changes nothing of any other path's transfer |
| `Framing.HeaderRoundTrip` | src/subsystems/communication/Messages.cpp:28-29 | the four header bytes are the length most significant first, and read back as it |
| `Framing.FrontExact` | src/subsystems/communication/Messages.cpp:38-45 | on the beginning of a stream of short frames the parser takes the first frame exactly when it is complete |
| `Framing.FrontShrinks` | src/subsystems/communication/Messages.cpp:44-45 | taking a frame shortens the buffer if and only if the header value is not 2^32 - 4 |
| `Framing.FrontSpins` | src/subsystems/communication/Messages.cpp:38-45 | at that value the parser takes a payload and leaves the buffer as it was |
| `Framing.EndlessSpins` | src/subsystems/communication/Messages.cpp:36-52 | a loop that takes frames for ever has come to that value |
| `Framing.StreamParsed` | src/subsystems/communication/Messages.cpp:24-45 | of a stream of short frames the parser gets through whatever has arrived, finds the first payloads and keeps less than a frame |
| `Framing.MessageProtocol.ProcessBuffer` | src/subsystems/communication/Messages.cpp:34-53 | on any buffer without that value at a frame boundary the loop ends, has handled the decodable payloads of exactly the complete frames in order, and keeps the unconsumed rest |
| `Framing.Deliver` | src/subsystems/communication/Messages.cpp:24-53 | however the stream is cut into reads exactly the decodable payloads are handled, in order |
| `Scanner.FindNewAndModifiedFiles` | src/subsystems/fs_scanner/FSScanner.cpp:22-38 | exactly the untracked or tombstoned files and exactly the files with another time, each once |
| `Scanner.SplitNodesBasedOnINodeExists` | src/subsystems/fs_scanner/FSScanner.cpp:40-57 | the missing files without inode, and one missing file for every other inode |
| `Scanner.MatchRenames` | src/subsystems/fs_scanner/FSScanner.cpp:75-86 | every candidate becomes a new file or a rename of the same inode, once; the counts add up; no candidate left as a new file has the inode of a missing file no rename used |
| `Scanner.Deletions` | src/subsystems/fs_scanner/FSScanner.cpp:88-93 | exactly the missing files no rename used up |
| `Scanner.ScanFiles` | src/subsystems/fs_scanner/FSScanner.cpp:59-93 | the lists conserve paths and counts; no file reported as new has the inode of one reported as deleted; every missing file is deleted or renamed if and only if inodes tell the missing files apart; deletions carry the time of the scan |
| `Scanner.Counts` | src/subsystems/fs_scanner/FSScanner.cpp:59-93 | new files and renames are as many as candidates; deletions and renames are never more than the missing files, and as many if and only if inodes tell them apart |
| `Folding.MatchDirectories` | src/subsystems/fs_scanner/FSScanner.cpp:101-131 | directory moves connect vanished and found directories of one inode, each used once, and no such inode is left unmatched |
| `Folding.FoldIntoDirRenames` | src/subsystems/fs_scanner/FSScanner.cpp:146-161 | the nested loops keep the renames no directory move implies |
| `Folding.DescendantTrans` | src/subsystems/fs_scanner/FSScanner.cpp:136-144 | implied moves compose |
| `Folding.FoldExact` | src/subsystems/fs_scanner/FSScanner.cpp:133-164 | kept are exactly the renames no kept directory move implies; every dropped one is reproduced by rewriting the prefix of a kept one |
| `Folding.ScanFilesystemForChanges` | src/subsystems/fs_scanner/FSScanner.cpp:59-167 | the whole scan: conserved lists and counts, every move of a file or directory recognised as one, times as on disk, top moves only |
| `Sessions.SessionRegistry.HasSession` | src/subsystems/auth/server/SessionRegistry.cpp:35-43 | true exactly if some session has the user and device |
| `Sessions.SessionRegistry.RevokeAllForUser` | src/subsystems/auth/server/SessionRegistry.cpp:59-66 | erases exactly the user's sessions |
| `Sessions.AuthServer.HandleRegister` | src/subsystems/auth/server/AuthServer.cpp:54-67 | refuses a taken name and then changes nothing; otherwise the name opens with exactly that password, unless it could not be hashed; sessions stay |
| `Sessions.AuthServer.HandleLogin` | src/subsystems/auth/server/AuthServer.cpp:69-109 | the checks in their order: empty fields, the device connected, the credentials; a new session on success and no change otherwise |
| `Sessions.AuthServer.HandleLogout` | src/subsystems/auth/server/AuthServer.cpp:111-125 | ends the token's session and no other, whichever connection asks; a token of no session is refused |
| `Sessions.AuthServer.HandleDeleteAccount` | src/subsystems/auth/server/AuthServer.cpp:127-150 | after confirming the password removes exactly the account and all its sessions; no change otherwise |
| `Sessions.FileServer.OnNewConnection` | src/server/FileServer.cpp:196-202 | a connection is known before anybody logs in on it |
| `Sessions.FileServer.Authorize` | src/server/FileServer.cpp:87-97 | authorises exactly the token of the session bound to the connection, if it is still active, and then only that session's last activity moves |
| `Sessions.FileServer.Dispatch` | src/server/FileServer.cpp:219-277 | account messages first, everything else only when authorised; bindings follow the signals |
| `Sessions.FileServer.OnSocketDisconnected` | src/server/FileServer.cpp:208-217 | the connection, its binding and its session end together |
| `SessionRun.SessionsSound` | src/subsystems/auth/server/AuthServer.cpp:69-150 | over all histories: at most one session per user and device, of registered users, and no session bound twice |
| `SessionRun.AuthorizedIsOwn` | src/server/FileServer.cpp:87-97 | authorised work is done under an active session of a registered user handed out on that very connection |
| `SessionRun.AuthorizedExactly` | src/server/FileServer.cpp:77-97 | over all histories: a token opens work on a connection if and only if a login on it was handed that session and since then the connection was not closed, logged in again, logged out or used to delete an account, and nobody ended the session |
| `SessionRun.OpensExactly` | src/subsystems/auth/server/AuthServer.cpp:54-150 | over all histories: a password opens an account if and only if the account was registered with it while the name was free, and not deleted since |
| `SessionRun.SessionKept` | src/subsystems/auth/server/SessionRegistry.cpp:45-49 | a session keeps user, device and beginning; its last activity moves exactly with work authorised for it |
| `SessionRun.ConnectionNext` | src/server/FileServer.cpp:196-217 | a connection is known from its beginning to its end, is bound to nothing after, and an unknown one has no effect |
| `SessionRun.RevokedForGood` | src/subsystems/auth/server/AuthServer.cpp:37-52 | a token of an ended session never opens anything again |
| `SessionRun.OrphansExactly` | src/server/FileServer.cpp:77-85 | an event leaves an active session without its connection if and only if it is a second login that passes all checks on a connection bound to an active session, or a logout there with another active session's token, or the deletion there of another user's account; the stranded session is the connection's |
| `SessionRun.OrphanNext` | src/server/FileServer.cpp:77-85 | session by session: active without a connection after an event if and only if it was before and is not released, or is the one the event strands |
| `SessionRun.LockedOut` | src/subsystems/auth/server/AuthServer.cpp:79-84 | over all continuations: an active session without a connection stays so, and every login of its user and device is refused, for exactly as long as nobody logs that very session out or deletes the account |

## Left out

- MerkleTrees.MerkleTree.AddFile: asks that no file and no tombstoned directory lies above the path and the path itself is no tombstoned directory; a file above it trips an assertion (src/subsystems/filesystem/MerkleTree.cpp:265-269), and the callers only use file paths none of which is a directory of another.
- FSMetadata.FSMetadata.RecordFile: asks for a user id without slashes and for paths in canonical form on a clash-free set of paths; `Keys.KeysMeet` says exactly which ids could disturb each other, and a string that is not canonical would be a key no tree path stands for.
- FSMetadata.FSMetadata.GetUserTree: asks for a user id without slashes, for the same reason.
- FSMetadata.FSMetadata.RecordDeletion: asks for the same; what its map part does to any key at all is stated by `FSMetadata.FSMetadata.MarkDeleted`.
- PlanHandlers.FileClient.HandleNegotiationCompleted: progress counters and the moment of the completion signal are not part of this model; completion is every started piece of work being done.
- PlanHandlers.FileClient: the two databases of this module are one user's slice as a value; that the class over all users' keys makes the same steps is stated by `FSMetadata.FSMetadata.RecordFile` and `RecordDeletion`.
- Convergence.InvApply: a finished transfer is one copy of the counted parts made when it finishes; that this is what a transfer leaves is what `UploadRun` and `DownloadRun` prove. Other devices do not change the server during a client's round, because the server deletes without comparing times.
- MerkleRound.SecondRoundEmpty: a second plan may still hold directories without live files in them.
- Connection.ConnectionNeverFails: a path is transferred in one direction at a time; other clients' transfers are separate by the keys of `Chunking.ChunkingServer`.
- Framing.MessageProtocol.ProcessBuffer: asks that no frame boundary reads 2^32 - 4, where the loop does not end, nor one of the four values whose sum with 4 overflows a signed 32-bit number, which is undefined in C++.
- Storage: failures of the file system or the object store; the visible object appears at once when a session is finished.
- ChunkMath.TotalTiles: sizes are taken as unsigned 64-bit numbers; the storage interface casts them to signed ones.
- Sessions: nothing reads the times of last activity; registration does not refuse empty names.
- Scanner.ScanFiles: all deletions of one scan carry one detection time, where the source reads the clock for each.
- Retry counters, transfer phases, progress percentages, debug output, `getHashesAtDepth`, file counting.
- Sockets, TLS, timers, JSON and base64 conversion, SHA-256, Argon2 and JWT signing: foreign or plumbing.
- LocalScan.ScanAndApply: reading a listed file never fails; that the server's records fit its files is the hypothesis that it is scanned.
- Chunking.ChunkingClient.HandleChunkReceived: a cancel comes at the progress signal; one from inside the signal to write (src/subsystems/chunking_protocol/client/ChunkingClient.cpp:168-183) is not part of this model.
